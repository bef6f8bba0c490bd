/** The phone number's way through the profile patch and registration of
    internal/transport/users/handlers.go: column to integer to text to integer to column. */
module Profile {
  import opened Outcomes
  import opened Credentials
  import opened Schema
  import opened SessionSql
  import opened Requests
  import opened Machine
  import opened Integrity
  import opened Invariants
  import opened Database
  import opened Handlers
  import Decimal
  import Text

  /** The phone column a patch aims at: the stored one if the patch has no phone, otherwise the
      validated number, with zero standing for no phone. */
  function PatchedPhone(stored: Option<int>, phone: Option<string>, cfg: Config): Result<Option<int>, string>
  {
    if phone.None? then Ok(if stored == Some(0) then None else stored)
    else
      match ValidatePhone(phone.value, cfg.phoneRequired)
      case Ok(n) => Ok(PhoneColumn(n))
      case Err(e) => Err(e)
  }

  function Given<T>(field: Option<T>, stored: T): T
  {
    if field.Some? then field.value else stored
  }

  /** What a patch does without interference: the three columns of the caller's row are set, or
      nothing is written. */
  ghost function Patched(t: Tables, cfg: Config, caller: Id,
                         username: Option<string>, email: Option<string>, phone: Option<string>): Solo
  {
    if !ActiveUser(t, caller) then Solo(t, Rejected)
    else
      var row := t.users[caller];
      match PatchedPhone(row.phone, phone, cfg)
      case Err(_) => Solo(t, Rejected)
      case Ok(column) =>
        RowWritten(t, caller, row.(username := Given(username, row.username),
                                   email := Given(email, row.email),
                                   phone := column))
  }

  /** The row is stored if it fits its columns and no other row has its username, email or phone. */
  ghost function RowWritten(t: Tables, id: Id, row: User): Solo
  {
    if UserFits(row) && forall j | j in t.users && j != id :: Distinct(row, t.users[j])
    then Solo(t.(users := t.users[id := row]), Accepted) else Solo(t, Rejected)
  }

  /** An update through the decimal text of a 64-bit number stores that number, and zero as NULL. */
  lemma UpdateStoresNumber(t: Tables, id: Id, username: string, email: string, n: int)
    requires Decimal.MIN_INT64 <= n <= Decimal.MAX_INT64 && ActiveUser(t, id)
    ensures Written(UpdateUser(t, id, username, email, PhoneText(n))) ==
            RowWritten(t, id, t.users[id].(username := username, email := email, phone := PhoneColumn(n)))
  {
    PhoneTextRoundTrip(n);
  }

  /** The number a patch starts from or validates is the one its phone column stands for. */
  function PatchedNumber(stored: Option<int>, phone: Option<string>, cfg: Config): Result<int, string>
  {
    if phone.None? then Ok(PhoneInt(stored)) else ValidatePhone(phone.value, cfg.phoneRequired)
  }

  lemma NumberOfColumn(stored: Option<int>, phone: Option<string>, cfg: Config)
    requires stored.Some? ==> FitsInt32(stored.value)
    ensures var n, column := PatchedNumber(stored, phone, cfg), PatchedPhone(stored, phone, cfg);
            && (n.Ok? <==> column.Ok?)
            && (n.Ok? ==> Decimal.MIN_INT64 <= n.value <= Decimal.MAX_INT64 && PhoneColumn(n.value) == column.value)
  {
    if phone.Some? && ValidatePhone(phone.value, cfg.phoneRequired).Ok? {
      PhoneMagnitude(phone.value, cfg.phoneRequired);
    }
  }

  /** UserPatch from the read of the current user on. */
  method UserPatch(db: PsqlDB, cfg: Config, caller: Id,
                   usernameIn: Option<string>, emailIn: Option<string>, phoneIn: Option<string>)
    returns (outcome: Outcome)
    requires db.Valid()
    modifies db`users
    ensures db.Valid()
    ensures Solo(db.View(), outcome) == Patched(old(db.View()), cfg, caller, usernameIn, emailIn, phoneIn)
    ensures outcome == Accepted ==>
      && caller in old(db.users) && caller in db.users
      && var a, b := old(db.users)[caller], db.users[caller];
      && db.users == old(db.users)[caller := b]
      && b.username == (if usernameIn.Some? then usernameIn.value else a.username)
      && b.email == (if emailIn.Some? then emailIn.value else a.email)
      && (phoneIn.None? && a.phone != Some(0) ==> b.phone == a.phone)
      && b.active == a.active && b.passwordHash == a.passwordHash
  {
    ghost var t := db.View();
    var current := db.GetUser(Some(caller), "", "");
    if current.Failed? {
      return Rejected;
    }
    var username, email := current.user.username, current.user.email;
    var phone := 0;
    if current.user.phone.Some? {
      phone := current.user.phone.value;
    }
    if usernameIn.Some? {
      username := usernameIn.value;
    }
    if emailIn.Some? {
      email := emailIn.value;
    }
    NumberOfColumn(current.user.phone, phoneIn, cfg);
    if phoneIn.Some? {
      var validated := ValidatePhone(phoneIn.value, cfg.phoneRequired);
      if validated.Err? {
        return Rejected;
      }
      phone := validated.value;
    }
    var phoneValue := "";
    if phone != 0 {
      phoneValue := Decimal.Itoa(phone);
    }
    UpdateStoresNumber(t, caller, username, email, phone);
    var updated := db.UpdateUser(caller, username, email, phoneValue);
    return if updated.Failed? then Rejected else Accepted;
  }

  /** The interleaved program of a patch, run alone, does what its handler does. */
  lemma PatchProgramIsHandler(t: Tables, now: Time, cfg: Config, tok: AccessToken,
                              username: Option<string>, email: Option<string>, phone: Option<string>, d: Draw)
    requires UserSchema(t.users, t.subjects)
    ensures RunAlone(t, now, cfg, Ready(tok, PatchUser(username, email, phone)), d)
         == Patched(t, cfg, tok.subject, username, email, phone)
  {
    if ActiveUser(t, tok.subject) {
      var row := t.users[tok.subject];
      var n := PatchedNumber(row.phone, phone, cfg);
      NumberOfColumn(row.phone, phone, cfg);
      if n.Ok? {
        var u, e := Given(username, row.username), Given(email, row.email);
        UpdateStoresNumber(t, tok.subject, u, e, n.value);
        PatchWriteProgram(t, now, cfg, tok, tok.subject, u, e, PhoneText(n.value), d);
      }
    }
  }

  lemma PatchWriteProgram(t: Tables, now: Time, cfg: Config, tok: AccessToken, id: Id,
                          username: string, email: string, phoneText: string, d: Draw)
    ensures RunAlone(t, now, cfg, PatchWrite(tok, id, username, email, phoneText), d)
         == Written(UpdateUser(t, id, username, email, phoneText))
  {}

  // ---- Phones over runs ----

  /** In every reachable state a patch without a phone, run alone, leaves every phone as it is. */
  lemma PatchKeepsOmittedPhone(s: System, caller: Id, username: Option<string>, email: Option<string>, u: Id)
    requires Reachable(s) && u in s.t.users
    ensures var t' := Patched(s.t, s.cfg, caller, username, email, None).t;
            u in t'.users && t'.users[u].phone == s.t.users[u].phone
  {
    ReachableInvariant(s);
  }

  /** Request rid is about to read its user for a patch without a phone. */
  predicate ReadsForPatch(s: System, rid: RequestId, caller: Id)
  {
    rid in s.requests && s.requests[rid].Ready? && s.requests[rid].tok.subject == caller
    && s.requests[rid].act.PatchUser? && s.requests[rid].act.phone.None?
  }

  /** Event k stores a new profile of the user: it is the write of a patch, and it succeeds. */
  ghost predicate UpdatesUser(run: Run, k: nat, u: Id)
    requires WellFormed(run) && k < |run.events|
  {
    && CallsAt(run, k)
    && var s, r := run.states[k], run.states[k].requests[run.events[k].rid];
       r.PatchWrite? && r.id == u && UpdateUser(s.t, u, r.username, r.email, r.phoneText).reply.UserReply?
  }

  /** Event i reads the user for a patch without a phone, and event j is the write of that request,
      which succeeds. */
  ghost predicate PatchesWithoutPhone(run: Run, i: nat, j: nat, rid: RequestId, caller: Id)
    requires WellFormed(run)
  {
    && i < j < |run.events|
    && CallsAt(run, i) && run.events[i].rid == rid && ReadsForPatch(run.states[i], rid, caller)
    && CallsAt(run, j) && run.events[j].rid == rid
    && rid in run.states[i + 1].requests && run.states[j].requests[rid] == run.states[i + 1].requests[rid]
    && UpdatesUser(run, j, caller)
  }

  /** Among other requests, a patch without a phone writes back the phone it read, whatever was
      stored since. */
  lemma OmittedPhoneWritesWhatItRead(run: Run, i: nat, j: nat, rid: RequestId, caller: Id)
    requires IsRun(run) && PatchesWithoutPhone(run, i, j, rid, caller)
    ensures caller in run.states[i].t.users && caller in run.states[j].t.users && caller in run.states[j + 1].t.users
    ensures run.states[j + 1].t.users[caller].phone == run.states[i].t.users[caller].phone
  {
    var s := run.states[i];
    RunKeepsInvariant(run, i);
    assert StepAt(run, i) && StepAt(run, j);
    PatchRemembersPhone(s, rid, run.events[i].draw, caller);
    OmittedPhoneIsKept(s.t.users[caller].phone);
    PatchStoresText(run.states[j], rid, run.events[j].draw);
  }

  lemma OtherCallsKeepPhone(t: Tables, now: Time, call: DbCall, u: Id)
    requires KindsAgree(t.subjects, t.users, t.orgs) && u in t.users
    requires call.CallUpdateUser? && call.id == u ==> !Apply(t, now, call).reply.UserReply?
    ensures u in Apply(t, now, call).t.users && Apply(t, now, call).t.users[u].phone == t.users[u].phone
  {
    if !WritesUsers(call) {
      OtherCallsKeepUsers(t, now, call);
    } else {
      WritesOtherPhones(t, now, call, u);
    }
  }

  lemma WritesOtherPhones(t: Tables, now: Time, call: DbCall, u: Id)
    requires WritesUsers(call) && u in t.users && t.users.Keys <= t.subjects.Keys
    requires call.CallUpdateUser? && call.id == u ==> !Apply(t, now, call).reply.UserReply?
    ensures u in Apply(t, now, call).t.users && Apply(t, now, call).t.users[u].phone == t.users[u].phone
  {}

  lemma CallKeepsPhone(s: System, rid: RequestId, d: Draw, u: Id)
    requires rid in s.requests && KindsAgree(s.t.subjects, s.t.users, s.t.orgs) && u in s.t.users
    requires var r := s.requests[rid];
             r.PatchWrite? && r.id == u ==> !UpdateUser(s.t, u, r.username, r.email, r.phoneText).reply.UserReply?
    ensures var t' := AfterCall(s, rid, d).t; u in t'.users && t'.users[u].phone == s.t.users[u].phone
  {
    UpdateCallOf(s.requests[rid], d, s.cfg);
    OtherCallsKeepPhone(s.t, s.now, NextCall(s.requests[rid], d, s.cfg), u);
    AfterCallTables(s, rid, d);
  }

  lemma StepKeepsPhone(run: Run, k: nat, u: Id)
    requires IsRun(run) && k < |run.events| && u in run.states[k].t.users && !UpdatesUser(run, k, u)
    ensures u in run.states[k + 1].t.users && run.states[k + 1].t.users[u].phone == run.states[k].t.users[u].phone
  {
    var s := run.states[k];
    RunKeepsInvariant(run, k);
    assert StepAt(run, k);
    if CallsAt(run, k) {
      CallKeepsPhone(s, run.events[k].rid, run.events[k].draw, u);
    }
  }

  lemma UpdateCallOf(r: Request, d: Draw, cfg: Config)
    ensures NextCall(r, d, cfg).CallUpdateUser? ==>
      r.PatchWrite? && NextCall(r, d, cfg) == CallUpdateUser(r.id, r.username, r.email, r.phoneText)
  {}

  lemma {:induction false} PhoneStaysWithoutUpdate(run: Run, i: nat, j: nat, u: Id)
    requires IsRun(run) && i <= j < |run.states| && u in run.states[i].t.users
    requires forall k | i <= k < j :: !UpdatesUser(run, k, u)
    ensures u in run.states[j].t.users && run.states[j].t.users[u].phone == run.states[i].t.users[u].phone
  {
    if i < j {
      PhoneStaysWithoutUpdate(run, i, j - 1, u);
      StepKeepsPhone(run, j - 1, u);
    }
  }

  /** Of the numbers strictly between i and j, k is the last with the property. */
  ghost predicate IsLast(p: nat -> bool, i: nat, j: nat, k: nat)
  {
    i < k < j && p(k) && forall m | k < m < j :: !p(m)
  }

  lemma {:induction false} LastExists(p: nat -> bool, i: nat, j: nat) returns (k: nat)
    requires i < j
    ensures IsLast(p, i, j, k) || (k == i && forall m | i < m < j :: !p(m))
  {
    if j == i + 1 {
      k := i;
    } else if p(j - 1) {
      k := j - 1;
    } else {
      k := LastExists(p, i, j - 1);
    }
  }

  /** Event k is the last update of the user strictly between events i and j. */
  ghost predicate LastUpdate(run: Run, i: nat, j: nat, u: Id, k: nat)
    requires WellFormed(run) && j <= |run.events|
  {
    i < k < j && UpdatesUser(run, k, u) && forall m | k < m < j :: !UpdatesUser(run, m, u)
  }

  lemma LastUpdateExists(run: Run, i: nat, j: nat, u: Id) returns (k: nat)
    requires WellFormed(run) && i < j <= |run.events|
    ensures LastUpdate(run, i, j, u, k) || (k == i && forall m | i < m < j :: !UpdatesUser(run, m, u))
  {
    var p := (m: nat) => m < |run.events| && UpdatesUser(run, m, u);
    k := LastExists(p, i, j);
    assert forall m | i < m < j :: p(m) == UpdatesUser(run, m, u);
  }

  /** The phone at state j is the one left by the last update after event i, or that of state i. */
  lemma PhoneIsLastStored(run: Run, i: nat, j: nat, u: Id) returns (k: nat)
    requires IsRun(run) && i < j <= |run.events| && u in run.states[i].t.users && !UpdatesUser(run, i, u)
    ensures LastUpdate(run, i, j, u, k) || (k == i && forall m | i < m < j :: !UpdatesUser(run, m, u))
    ensures u in run.states[j].t.users && u in run.states[k + 1].t.users
    ensures run.states[j].t.users[u].phone == run.states[k + 1].t.users[u].phone
    ensures k == i ==> run.states[k + 1].t.users[u].phone == run.states[i].t.users[u].phone
  {
    k := LastUpdateExists(run, i, j, u);
    RunEvolvesUsers(run, i, k + 1);
    PhoneStaysWithoutUpdate(run, k + 1, j, u);
    if k == i {
      StepKeepsPhone(run, i, u);
    }
  }

  /** Such a patch leaves the stored phone alone exactly when the last update of the user between
      its read and its write, if there is one, stored the phone that was read; so always when there
      is none. */
  lemma OmittedPhoneKeptExactly(run: Run, i: nat, j: nat, rid: RequestId, caller: Id) returns (k: nat)
    requires IsRun(run) && PatchesWithoutPhone(run, i, j, rid, caller)
    ensures LastUpdate(run, i, j, caller, k) || (k == i && forall m | i < m < j :: !UpdatesUser(run, m, caller))
    ensures caller in run.states[i].t.users && caller in run.states[k + 1].t.users
    ensures caller in run.states[j].t.users && caller in run.states[j + 1].t.users
    ensures run.states[j + 1].t.users[caller].phone == run.states[j].t.users[caller].phone <==>
            k == i || run.states[k + 1].t.users[caller].phone == run.states[i].t.users[caller].phone
  {
    OmittedPhoneWritesWhatItRead(run, i, j, rid, caller);
    k := PhoneIsLastStored(run, i, j, caller);
  }

  lemma PatchStoresText(s: System, rid: RequestId, d: Draw)
    requires rid in s.requests && s.requests[rid].PatchWrite?
    requires var r := s.requests[rid]; UpdateUser(s.t, r.id, r.username, r.email, r.phoneText).reply.UserReply?
    ensures var r, n := s.requests[rid], ParsePhoneText(s.requests[rid].phoneText);
            var t' := AfterCall(s, rid, d).t;
            n.Some? && r.id in s.t.users && r.id in t'.users && t'.users[r.id].phone == PhoneColumn(n.value)
  {
    AfterCallTables(s, rid, d);
  }

  lemma PatchRemembersPhone(s: System, rid: RequestId, d: Draw, caller: Id)
    requires ReadsForPatch(s, rid, caller) && rid in AfterCall(s, rid, d).requests
    ensures ActiveUser(s.t, caller)
    ensures var r := AfterCall(s, rid, d).requests[rid];
            r.PatchWrite? && r.id == caller && r.phoneText == PhoneText(PhoneInt(s.t.users[caller].phone))
  {}

  // ---- Registration ----

  /** A phone that passes validation is stored exactly when it fits the 32-bit column: the format
      check alone does not make a registration succeed. */
  lemma AcceptedPhoneIsStoredExactly(t: Tables, id: Id, username: string, email: string, passwordHash: string,
                                     phoneRaw: string, cfg: Config)
    requires ValidatePhone(phoneRaw, cfg.phoneRequired).Ok? && id !in t.subjects
    requires TextFits(username, 128) && TextFits(email, 128) && TextFits(passwordHash, 512)
    requires forall j | j in t.users ::
      Distinct(User(true, username, email, PhoneColumn(PhoneNumber(phoneRaw, cfg)), passwordHash), t.users[j])
    ensures var e := CreateUser(t, id, true, username, email, passwordHash, PhoneNumber(phoneRaw, cfg));
            && (e.reply.UserReply? <==> FitsInt32(PhoneNumber(phoneRaw, cfg)))
            && (e.reply.UserReply? ==>
                  id in e.t.users && e.t.users[id].phone == PhoneColumn(PhoneNumber(phoneRaw, cfg)))
  {
    var n := PhoneNumber(phoneRaw, cfg);
    var row := User(true, username, email, PhoneColumn(n), passwordHash);
    assert FitsInt32(n) <==> UserFits(row);
  }

  /** Every number of ten to fifteen digits is a valid phone, and those beyond 32 bits cannot be
      stored. */
  lemma WidePhonesAreValid(n: nat, isPhoneRequired: bool)
    requires 1_000_000_000 <= n < 1_000_000_000_000_000
    ensures ValidatePhone(Decimal.Itoa(n), isPhoneRequired) == Ok(n)
    ensures FitsInt32(n) <==> n <= 2_147_483_647
  {
    TenToFifteenDigits(n);
    PrintedIsPlain(n);
    Decimal.AtoiOfItoa(n);
  }

  lemma TenToFifteenDigits(n: nat)
    requires 1_000_000_000 <= n < 1_000_000_000_000_000
    ensures 10 <= |Decimal.Itoa(n)| <= 15
  {
    TenToFifteen();
    TenToNine();
    Decimal.DigitsAtLeast(n, 9);
    Decimal.DigitsAtMost(n, 15);
  }

  lemma PrintedIsPlain(n: nat)
    ensures var s := Decimal.Itoa(n); s[0] != '+' && Text.TrimSpace(s) == s && Text.ByteLen(s) == |s|
  {
    var s := Decimal.Itoa(n);
    assert Decimal.IsDigit(s[0]) && Decimal.IsDigit(s[|s| - 1]);
    Text.TrimSpaceIdentity(s);
    DigitsAreAscii(s);
  }

  lemma TenToNine()
    ensures Decimal.Pow10(9) == 1_000_000_000
  {
    assert Decimal.Pow10(3) == 1000;
    assert Decimal.Pow10(6) == 1000 * Decimal.Pow10(3);
  }

  lemma DigitsAreAscii(s: string)
    requires Decimal.AllDigits(s)
    ensures Text.ByteLen(s) == |s|
  {
    forall c | c in s ensures c as int < 0x80 {
      var i :| 0 <= i < |s| && s[i] == c;
      assert Decimal.IsDigit(s[i]);
    }
    Text.ByteLenOfAscii(s);
  }
}
