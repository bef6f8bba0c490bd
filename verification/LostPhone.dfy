/** A run in which a patch without a phone overwrites a phone that was stored after it read. */
module LostPhone {
  import opened Outcomes
  import opened Credentials
  import opened Schema
  import opened SessionSql
  import opened Requests
  import opened Machine
  import opened Profile
  import opened FirstLogin
  import Decimal

  const NUMBER: nat := 1_234_567_890

  const RENAME: Act := PatchUser(Some("anna"), None, None)
  const ADD_PHONE: Act := PatchUser(Some("ann"), None, Some(Decimal.Itoa(NUMBER)))

  function Writing(s: System, rid: RequestId, username: string, phoneText: string, d: Draw): System
  {
    Drawn(Begun(s, rid, PatchWrite(TOKEN, 1, username, ANN.email, phoneText)), d)
  }

  /** A patch of ann's that reads her original row goes on to write. */
  lemma ReadsRow(s: System, rid: RequestId, username: string, phone: Option<string>, number: nat, d: Draw)
    requires rid in s.requests && s.requests[rid] == Ready(TOKEN, PatchUser(Some(username), None, phone))
    requires s.t.users == map[1 := ANN] && s.cfg == CFG
    requires phone.None? ==> number == 0
    requires phone.Some? ==> 1_000_000_000 <= number < 1_000_000_000_000_000 && phone.value == Decimal.Itoa(number)
    ensures AfterCall(s, rid, d) == Writing(s, rid, username, PhoneText(number), d)
  {
    if phone.Some? {
      WidePhonesAreValid(number, CFG.phoneRequired);
    }
    assert GetUserById(s.t, 1) == Effect(s.t, UserReply(1, ANN));
    assert s.creators + map[] == s.creators && s.tokens + {} == s.tokens;
  }

  lemma WritesPatch(s: System, rid: RequestId, username: string, phoneText: string, d: Draw)
    requires rid in s.requests && s.requests[rid] == PatchWrite(TOKEN, 1, username, ANN.email, phoneText)
    ensures ReplyOf(s, rid, d) == UpdateUser(s.t, 1, username, ANN.email, phoneText).reply
    ensures var s' := AfterCall(s, rid, d);
            && s'.t == UpdateUser(s.t, 1, username, ANN.email, phoneText).t
            && s'.requests == s.requests - {rid} && s'.cfg == s.cfg
  {}

  lemma UpdateStores(t: Tables, username: string, number: nat, stored: User)
    requires t.users == map[1 := stored] && stored.active && number <= 0x7FFF_FFFF
    requires TextFits(username, 128) && TextFits(ANN.email, 128) && TextFits(stored.passwordHash, 512)
    ensures var row := stored.(username := username, email := ANN.email, phone := PhoneColumn(number));
            UpdateUser(t, 1, username, ANN.email, PhoneText(number))
            == Effect(t.(users := map[1 := row]), UserReply(1, row))
  {
    PhoneTextRoundTrip(number);
    var row := stored.(username := username, email := ANN.email, phone := PhoneColumn(number));
    assert t.users[1 := row] == map[1 := row];
  }

  /** A write of ann's stores name and number, as she is the only user. */
  lemma StoresRow(s: System, rid: RequestId, username: string, number: nat, stored: User, d: Draw)
    requires rid in s.requests && s.requests[rid] == PatchWrite(TOKEN, 1, username, ANN.email, PhoneText(number))
    requires s.t.users == map[1 := stored] && stored.active && number <= 0x7FFF_FFFF
    requires TextFits(username, 128) && TextFits(ANN.email, 128) && TextFits(stored.passwordHash, 512)
    ensures ReplyOf(s, rid, d).UserReply?
    ensures var s' := AfterCall(s, rid, d);
            && s'.t.users == map[1 := stored.(username := username, email := ANN.email, phone := PhoneColumn(number))]
            && s'.requests == s.requests - {rid} && s'.cfg == s.cfg
  {
    UpdateStores(s.t, username, number, stored);
    WritesPatch(s, rid, username, PhoneText(number), d);
  }

  const READY: System := Gated(S5, 0, RENAME, Fresh(7, 0))
  const READ: System := Writing(READY, 0, "anna", "", Fresh(9, 0))

  lemma FirstReads()
    ensures Reachable(READY) && Drawable(READY, Fresh(9, 0)) && AfterCall(READY, 0, Fresh(9, 0)) == READ
  {
    LogsIn();
    PassesGate(S5, 0, RENAME, Fresh(7, 0));
    LeadsToReachable(S5, READY);
    ReadsRow(READY, 0, "anna", None, 0, Fresh(9, 0));
  }

  /** The second patch, from any state with ann's first session and her original row: it reads
      and stores the number, and leaves other requests alone. */
  lemma SecondPatch(s: System, d0: Draw, d1: Draw, d2: Draw) returns (s': System)
    requires SignedIn(s) && s.cfg == CFG && s.t.users == map[1 := ANN] && 1 !in s.requests
    requires Drawable(s, d0) && Drawable(Drawn(s, d0), d1) && Drawable(Drawn(Drawn(s, d0), d1), d2)
    ensures Leads(s, s')
    ensures s'.t.users == map[1 := ANN.(phone := Some(NUMBER))] && s'.cfg == CFG && s'.requests == s.requests
  {
    var read := GatedAndRead(s, d0, d1);
    s' := SecondStores(read, d2);
    LeadsFurther(s, read, s');
  }

  lemma GatedAndRead(s: System, d0: Draw, d1: Draw) returns (read: System)
    requires SignedIn(s) && s.cfg == CFG && s.t.users == map[1 := ANN] && 1 !in s.requests
    requires Drawable(s, d0) && Drawable(Drawn(s, d0), d1)
    ensures Leads(s, read)
    ensures read == Writing(Gated(s, 1, ADD_PHONE, d0), 1, "ann", PhoneText(NUMBER), d1)
    ensures read.requests - {1} == s.requests
  {
    var ready := Gated(s, 1, ADD_PHONE, d0);
    read := Writing(ready, 1, "ann", PhoneText(NUMBER), d1);
    PassesGate(s, 1, ADD_PHONE, d0);
    SecondReads(ready, d1);
    LeadsFurther(s, ready, read);
  }

  lemma SecondReads(s: System, d: Draw)
    requires 1 in s.requests && s.requests[1] == Ready(TOKEN, ADD_PHONE) && Drawable(s, d)
    requires s.t.users == map[1 := ANN] && s.cfg == CFG
    ensures Leads(s, Writing(s, 1, "ann", PhoneText(NUMBER), d))
  {
    ReadsRow(s, 1, "ann", Some(Decimal.Itoa(NUMBER)), NUMBER, d);
    OneEventLeads(s, Call(1, d));
  }

  lemma SecondStores(s: System, d: Draw) returns (s': System)
    requires 1 in s.requests && s.requests[1] == PatchWrite(TOKEN, 1, "ann", ANN.email, PhoneText(NUMBER))
    requires s.t.users == map[1 := ANN] && s.cfg == CFG && Drawable(s, d)
    ensures Leads(s, s')
    ensures s'.t.users == map[1 := ANN.(phone := Some(NUMBER))] && s'.cfg == CFG && s'.requests == s.requests - {1}
  {
    StoresRow(s, 1, "ann", NUMBER, ANN, d);
    OneEventLeads(s, Call(1, d));
    s' := AfterCall(s, 1, d);
  }

  lemma ThreeDraws(s: System)
    requires s.used == {1, 2, 3, 4, 5, 6, 7, 8, 9, 10} && s.cfg == CFG && s.now == 0
    ensures Drawable(s, Fresh(11, 0)) && Drawable(Drawn(s, Fresh(11, 0)), Fresh(13, 0))
    ensures Drawable(Drawn(Drawn(s, Fresh(11, 0)), Fresh(13, 0)), Fresh(15, 0))
  {}

  lemma SecondPatches() returns (s: System)
    ensures Leads(READ, s)
    ensures s.t.users == map[1 := ANN.(phone := Some(NUMBER))] && s.cfg == CFG && s.requests == READ.requests
  {
    ThreeDraws(READ);
    s := SecondPatch(READ, Fresh(11, 0), Fresh(13, 0), Fresh(15, 0));
  }

  lemma FirstStores(s: System)
    requires s.t.users == map[1 := ANN.(phone := Some(NUMBER))] && s.cfg == CFG && s.requests == READ.requests
    ensures forall e :: ReplyOf(s, 0, e).UserReply?
                        && 1 in AfterCall(s, 0, e).t.users && AfterCall(s, 0, e).t.users[1].phone == None
  {
    forall e
      ensures ReplyOf(s, 0, e).UserReply?
              && 1 in AfterCall(s, 0, e).t.users && AfterCall(s, 0, e).t.users[1].phone == None
    {
      StoresRow(s, 0, "anna", 0, ANN.(phone := Some(NUMBER)), e);
    }
  }

  /** A reachable state in which ann's first patch, without a phone, is about to read, and a later
      one in which it is about to write and will succeed; the write changes the phone stored in
      between back to the one it read. */
  lemma PatchCanLosePhone() returns (before: System, d: Draw, s: System)
    ensures Reachable(before) && ReadsForPatch(before, 0, 1) && Drawable(before, d)
    ensures 0 in AfterCall(before, 0, d).requests && Leads(AfterCall(before, 0, d), s)
    ensures 0 in s.requests && s.requests[0] == AfterCall(before, 0, d).requests[0]
    ensures 1 in s.t.users && s.t.users[1].phone == Some(NUMBER)
    ensures forall e ::
      && ReplyOf(s, 0, e).UserReply?
      && 1 in AfterCall(s, 0, e).t.users && AfterCall(s, 0, e).t.users[1].phone == None
  {
    before, d := READY, Fresh(9, 0);
    FirstReads();
    s := SecondPatches();
    FirstStores(s);
  }
}
