/** The session map of the manager as a step machine: sessions being started, new
    connections looking for their session, messages, completion and Close, in any
    interleaving. */
module ManagerMap {
  import opened Text

  /** A session object.  `added` counts its insertions into the map, `owners` the
      connections it took; `fed` and `complete` are about its messages. */
  datatype Entry = Entry(id: string, added: nat, owners: nat, fed: bool, complete: bool, remote: bool)

  /** A connection handler.  `asked` is the id it read; `missed` is set if no session was
      found for it, to the number of sessions made before it looked. */
  datatype Handler =
    | Reading
    | Missing(asked: string, missed: Option<nat>)
    | Created(asked: string, s: nat, missed: Option<nat>)
    | Found(asked: string, s: nat, missed: Option<nat>)
    | Fed(asked: string, s: nat, missed: Option<nat>)
    | Listening(asked: string, s: nat, missed: Option<nat>)
    | Over(asked: string, s: nat, missed: Option<nat>)

  datatype Manager = Manager(
    sessions: map<string, nat>,   // id to session object
    table: seq<Entry>,            // every session object ever made
    handlers: seq<Handler>,
    removing: bool)               // removeCompletedSessions

  datatype Action =
    | StartSession(id: string)                 // newTransferSession with a generated id
    | AddStarted(s: nat)                       // concSessionsAdd after start
    | Accept                                   // a new connection
    | Lookup(c: nat, id: string)               // concSessionsGet with the id read
    | CreateRemote(c: nat, id: string)         // a session for a remotely started transfer
    | AddRemote(c: nat)
    | FirstBlob(c: nat, completes: bool)       // receiveManagementBlob
    | SetConn(c: nat)                          // setManagementConn
    | Message(c: nat, completes: bool)
    | SetRemoving(on: bool)
    | CloseManager

  /** A generated id is one that no session has. */
  predicate Unused(m: Manager, id: string) {
    forall s :: 0 <= s < |m.table| ==> m.table[s].id != id
  }

  predicate Enabled(m: Manager, a: Action) {
    match a
    case StartSession(id) => Unused(m, id)
    case AddStarted(s) => s < |m.table| && !m.table[s].remote && m.table[s].added == 0
    case Accept | SetRemoving(_) | CloseManager => true
    case Lookup(c, _) => c < |m.handlers| && m.handlers[c].Reading?
    case CreateRemote(c, id) => c < |m.handlers| && m.handlers[c].Missing? && Unused(m, id)
    case AddRemote(c) => c < |m.handlers| && m.handlers[c].Created? && m.handlers[c].s < |m.table|
    case FirstBlob(c, _) => c < |m.handlers| && m.handlers[c].Found? && m.handlers[c].s < |m.table|
    case SetConn(c) => c < |m.handlers| && m.handlers[c].Fed? && m.handlers[c].s < |m.table|
    case Message(c, _) => c < |m.handlers| && m.handlers[c].Listening? && m.handlers[c].s < |m.table|
  }

  function Add(m: Manager, s: nat): Manager
    requires s < |m.table|
  {
    m.(sessions := m.sessions[m.table[s].id := s], table := m.table[s := m.table[s].(added := m.table[s].added + 1)])
  }

  /** A message for a session; on completion onComplete runs before the latch closes. */
  function Feed(m: Manager, s: nat, completes: bool): Manager
    requires s < |m.table|
  {
    var e := m.table[s];
    m.(sessions := if completes && m.removing then m.sessions - {e.id} else m.sessions,
       table := m.table[s := e.(fed := true, complete := e.complete || completes)])
  }

  function SetHandler(m: Manager, c: nat, h: Handler): Manager
    requires c < |m.handlers|
  {
    m.(handlers := m.handlers[c := h])
  }

  function After(m: Manager, a: Action): Manager
    requires Enabled(m, a)
  {
    match a
    case StartSession(id) => m.(table := m.table + [Entry(id, 0, 0, false, false, false)])
    case AddStarted(s) => Add(m, s)
    case Accept => m.(handlers := m.handlers + [Reading])
    case Lookup(c, id) =>
      SetHandler(m, c, if id in m.sessions then Found(id, m.sessions[id], None) else Missing(id, Some(|m.table|)))
    case CreateRemote(c, id) =>
      var h := m.handlers[c];
      SetHandler(m.(table := m.table + [Entry(id, 0, 0, false, false, true)]), c, Created(h.asked, |m.table|, h.missed))
    case AddRemote(c) =>
      var h := m.handlers[c];
      SetHandler(Add(m, h.s), c, Found(h.asked, h.s, h.missed))
    case FirstBlob(c, completes) =>
      var h := m.handlers[c];
      SetHandler(Feed(m, h.s, completes), c, Fed(h.asked, h.s, h.missed))
    case SetConn(c) =>
      var h := m.handlers[c];
      if m.table[h.s].owners > 0 then SetHandler(m, c, Over(h.asked, h.s, h.missed))
      else SetHandler(m.(table := m.table[h.s := m.table[h.s].(owners := 1)]), c, Listening(h.asked, h.s, h.missed))
    case Message(c, completes) => Feed(m, m.handlers[c].s, completes)
    case SetRemoving(on) => m.(removing := on)
    case CloseManager => m.(sessions := map[])
  }

  function Execute(m: Manager, schedule: seq<Action>): Option<Manager>
    decreases |schedule|
  {
    if schedule == [] then Some(m)
    else if !Enabled(m, schedule[0]) then None
    else Execute(After(m, schedule[0]), schedule[1..])
  }

  // ---------- The invariant ----------

  predicate HasSession(h: Handler) {
    h.Created? || h.Found? || h.Fed? || h.Listening? || h.Over?
  }

  /** A handler whose session has been in the map. */
  predicate Bound(h: Handler) {
    h.Found? || h.Fed? || h.Listening? || h.Over?
  }

  predicate KeysAreIds(m: Manager) {
    forall id :: id in m.sessions ==>
      m.sessions[id] < |m.table| && m.table[m.sessions[id]].id == id && m.table[m.sessions[id]].added > 0
  }

  predicate DistinctIds(m: Manager) {
    forall s, t :: 0 <= s < t < |m.table| ==> m.table[s].id != m.table[t].id
  }

  predicate EntryOk(e: Entry) {
    && (e.fed ==> e.added > 0)
    && (e.complete ==> e.fed)
    && e.added <= 1
    && e.owners <= 1
  }

  predicate EntriesOk(m: Manager) {
    forall s :: 0 <= s < |m.table| ==> EntryOk(m.table[s])
  }

  predicate HandlerOk(m: Manager, h: Handler) {
    && (HasSession(h) ==> h.s < |m.table|)
    && (h.Missing? ==> h.missed.Some? && h.missed.value <= |m.table|)
    && (h.Created? ==> h.missed.Some? && m.table[h.s].added == 0)
    && (Bound(h) ==> m.table[h.s].added > 0 && (h.missed.None? ==> m.table[h.s].id == h.asked))
    && (HasSession(h) && h.missed.Some? ==> m.table[h.s].remote && h.missed.value <= h.s)
    && (h.Listening? ==> m.table[h.s].owners == 1)
  }

  predicate HandlersOk(m: Manager) {
    forall c :: 0 <= c < |m.handlers| ==> HandlerOk(m, m.handlers[c])
  }

  /** Two handlers never create the same session nor own the same one. */
  predicate Apart(h1: Handler, h2: Handler) {
    && (h1.Created? && h2.Created? ==> h1.s != h2.s)
    && (h1.Listening? && h2.Listening? ==> h1.s != h2.s)
  }

  predicate HandlersApart(m: Manager) {
    forall c, d :: 0 <= c < d < |m.handlers| ==> Apart(m.handlers[c], m.handlers[d])
  }

  predicate Inv(m: Manager) {
    KeysAreIds(m) && DistinctIds(m) && EntriesOk(m) && HandlersOk(m) && HandlersApart(m)
  }

  /** What an action may do to the sessions made so far. */
  predicate Grew(before: Manager, after: Manager) {
    && |before.table| <= |after.table|
    && (forall s :: 0 <= s < |before.table| ==>
         && after.table[s].id == before.table[s].id
         && after.table[s].remote == before.table[s].remote
         && before.table[s].added <= after.table[s].added
         && before.table[s].owners <= after.table[s].owners
         && (before.table[s].complete ==> after.table[s].complete))
  }

  lemma GrewStep(m: Manager, a: Action)
    requires Enabled(m, a)
    ensures Grew(m, After(m, a))
  {
    hide Unused;
  }

  lemma DistinctStep(m: Manager, a: Action)
    requires DistinctIds(m) && Enabled(m, a)
    ensures DistinctIds(After(m, a))
  {
  }

  lemma EntriesStep(m: Manager, a: Action)
    requires EntriesOk(m) && HandlersOk(m) && Enabled(m, a)
    ensures EntriesOk(After(m, a))
  {
    hide Unused;
    match a
    case AddRemote(c) => assert HandlerOk(m, m.handlers[c]);
    case FirstBlob(c, _) => assert HandlerOk(m, m.handlers[c]);
    case Message(c, _) => assert HandlerOk(m, m.handlers[c]);
    case SetConn(c) => assert HandlerOk(m, m.handlers[c]);
    case _ =>
  }

  lemma KeysStep(m: Manager, a: Action)
    requires KeysAreIds(m) && Enabled(m, a)
    ensures KeysAreIds(After(m, a))
  {
    hide Unused;
  }

  /** A handler that does nothing in this step. */
  lemma HandlerKept(m: Manager, r: Manager, h: Handler)
    requires HandlerOk(m, h) && Grew(m, r) && EntriesOk(r)
    requires h.Created? ==> h.s < |r.table| && r.table[h.s].added == 0
    ensures HandlerOk(r, h)
  {
    if h.Listening? {
      assert EntryOk(r.table[h.s]);
    }
  }

  /** Only the handler that created a session, or its starter, adds it. */
  lemma CreatedKept(m: Manager, a: Action, h: Handler)
    requires HandlerOk(m, h) && h.Created? && Enabled(m, a)
    requires a.AddRemote? ==> m.handlers[a.c].s != h.s
    ensures After(m, a).table[h.s].added == 0
  {
    hide Unused;
  }

  /** The handler that moves in this step. */
  lemma HandlerMoves(m: Manager, a: Action, c: nat)
    requires KeysAreIds(m) && HandlersOk(m) && Enabled(m, a)
    requires (a.Lookup? || a.CreateRemote? || a.AddRemote? || a.FirstBlob? || a.SetConn? || a.Message?) && a.c == c
    ensures HandlerOk(After(m, a), After(m, a).handlers[c])
  {
    hide Unused;
    assert HandlerOk(m, m.handlers[c]);
  }

  predicate MovesHandler(a: Action, c: nat) {
    (a.Lookup? || a.CreateRemote? || a.AddRemote? || a.FirstBlob? || a.SetConn? || a.Message?) && a.c == c
  }

  lemma HandlersStep(m: Manager, a: Action)
    requires Inv(m) && Enabled(m, a)
    ensures HandlersOk(After(m, a))
  {
    hide HandlerOk;
    hide KeysAreIds;
    hide DistinctIds;
    hide Unused;
    hide EntryOk;
    hide Apart;
    var r := After(m, a);
    GrewStep(m, a);
    EntriesStep(m, a);
    forall c | 0 <= c < |r.handlers| ensures HandlerOk(r, r.handlers[c]) {
      if c < |m.handlers| {
        if MovesHandler(a, c) {
          HandlerMoves(m, a, c);
        } else {
          assert r.handlers[c] == m.handlers[c];
          CreatedApart(m, a, c);
          HandlerKept(m, r, r.handlers[c]);
        }
      } else {
        ReadingOk(r);
      }
    }
  }

  lemma ReadingOk(m: Manager)
    ensures HandlerOk(m, Reading)
  {
  }

  lemma CreatedApart(m: Manager, a: Action, c: nat)
    requires HandlersOk(m) && HandlersApart(m) && Enabled(m, a) && c < |m.handlers| && !MovesHandler(a, c)
    ensures var h := m.handlers[c];
            h.Created? ==> h.s < |After(m, a).table| && After(m, a).table[h.s].added == 0
  {
    hide Unused;
    hide After;
    var h := m.handlers[c];
    if h.Created? {
      assert HandlerOk(m, h);
      if a.AddRemote? {
        var d := a.c;
        assert Apart(m.handlers[if c < d then c else d], m.handlers[if c < d then d else c]);
      }
      CreatedKept(m, a, h);
      GrewStep(m, a);
    }
  }

  lemma ApartStep(m: Manager, a: Action)
    requires Inv(m) && Enabled(m, a)
    ensures HandlersApart(After(m, a))
  {
    hide KeysAreIds;
    hide DistinctIds;
    hide Unused;
    hide EntryOk;
    var r := After(m, a);
    forall c, d | 0 <= c < d < |r.handlers| ensures Apart(r.handlers[c], r.handlers[d]) {
      if d < |m.handlers| {
        assert Apart(m.handlers[c], m.handlers[d]);
        assert HandlerOk(m, m.handlers[c]) && HandlerOk(m, m.handlers[d]);
      }
    }
  }

  lemma InvStep(m: Manager, a: Action)
    requires Inv(m) && Enabled(m, a)
    ensures Inv(After(m, a))
  {
    hide After;
    DistinctStep(m, a);
    EntriesStep(m, a);
    KeysStep(m, a);
    HandlersStep(m, a);
    ApartStep(m, a);
  }

  lemma {:induction false} InvExecute(m: Manager, schedule: seq<Action>)
    requires Inv(m) && Execute(m, schedule).Some?
    ensures Inv(Execute(m, schedule).value)
    decreases |schedule|
  {
    hide After;
    hide Inv;
    if schedule != [] {
      InvStep(m, schedule[0]);
      InvExecute(After(m, schedule[0]), schedule[1..]);
    }
  }

  function Start(removing: bool): Manager {
    Manager(map[], [], [], removing)
  }

  /** Over every interleaving: each key of the map is the id of its session and ids are
      unique; a session is added at most once and gets messages only after it was
      added; its connection is set at most once, so no two handlers listen for one
      session; and a connection whose id was not in the map when it was looked up
      ends up at a remote session made after that, with an id no earlier session has. */
  lemma ManagerInvariant(removing: bool, schedule: seq<Action>)
    requires Execute(Start(removing), schedule).Some?
    ensures var m := Execute(Start(removing), schedule).value;
            && KeysAreIds(m) && DistinctIds(m) && HandlersApart(m)
            && (forall s :: 0 <= s < |m.table| ==>
                  m.table[s].added <= 1 && m.table[s].owners <= 1 && (m.table[s].fed ==> m.table[s].added == 1))
            && (forall c :: 0 <= c < |m.handlers| && Bound(m.handlers[c]) ==>
                  var h := m.handlers[c];
                  h.s < |m.table|
                  && (h.missed.None? ==> m.table[h.s].id == h.asked)
                  && (h.missed.Some? ==>
                        && m.table[h.s].remote
                        && forall t :: 0 <= t < h.missed.value ==> t < h.s && m.table[t].id != m.table[h.s].id))
  {
    hide Execute;
    InvExecute(Start(removing), schedule);
    var m := Execute(Start(removing), schedule).value;
    assert forall s :: 0 <= s < |m.table| ==> EntryOk(m.table[s]);
    assert forall c :: 0 <= c < |m.handlers| ==> HandlerOk(m, m.handlers[c]);
  }

  // ---------- Removal of completed sessions ----------

  predicate NoneComplete(m: Manager) {
    forall id :: id in m.sessions ==> m.sessions[id] < |m.table| && !m.table[m.sessions[id]].complete
  }

  predicate KeepsRemoving(schedule: seq<Action>) {
    forall i :: 0 <= i < |schedule| ==> schedule[i] != SetRemoving(false)
  }

  lemma RemovalStep(m: Manager, a: Action)
    requires Inv(m) && Enabled(m, a) && NoneComplete(m) && m.removing && a != SetRemoving(false)
    ensures NoneComplete(After(m, a)) && After(m, a).removing
  {
    hide Unused;
    hide HandlersApart;
    match a
    case AddStarted(s) => assert EntryOk(m.table[s]);
    case AddRemote(c) => assert HandlerOk(m, m.handlers[c]); assert EntryOk(m.table[m.handlers[c].s]);
    case _ =>
  }

  lemma {:induction false} RemovalExecute(m: Manager, schedule: seq<Action>)
    requires Inv(m) && NoneComplete(m) && m.removing && KeepsRemoving(schedule)
    requires Execute(m, schedule).Some?
    ensures NoneComplete(Execute(m, schedule).value)
    decreases |schedule|
  {
    hide After;
    hide Inv;
    hide NoneComplete;
    if schedule != [] {
      RemovalStep(m, schedule[0]);
      InvStep(m, schedule[0]);
      RemovalExecute(After(m, schedule[0]), schedule[1..]);
    }
  }

  /** If removal was on from the beginning and never switched off, no completed
      session is ever in the map. */
  lemma CompletedAreRemoved(schedule: seq<Action>)
    requires KeepsRemoving(schedule) && Execute(Start(true), schedule).Some?
    ensures NoneComplete(Execute(Start(true), schedule).value)
  {
    hide Execute;
    RemovalExecute(Start(true), schedule);
  }

  // ---------- Sessions stay findable ----------

  predicate NeverCloses(schedule: seq<Action>) {
    forall i :: 0 <= i < |schedule| ==> !schedule[i].CloseManager?
  }

  predicate NeverRemoves(schedule: seq<Action>) {
    forall i :: 0 <= i < |schedule| ==> schedule[i] != SetRemoving(true)
  }

  /** Session `s` is in the map under its own id. */
  predicate Findable(m: Manager, s: nat) {
    s < |m.table| && m.table[s].id in m.sessions && m.sessions[m.table[s].id] == s
  }

  /** Every added session that is not complete is findable, and if `always`, a complete one too. */
  predicate AddedFindable(m: Manager, always: bool) {
    forall s :: 0 <= s < |m.table| && m.table[s].added > 0 && (always || !m.table[s].complete) ==> Findable(m, s)
  }

  lemma FindableStep(m: Manager, a: Action, always: bool)
    requires Inv(m) && Enabled(m, a) && !a.CloseManager? && AddedFindable(m, always)
    requires always ==> !m.removing && a != SetRemoving(true)
    ensures AddedFindable(After(m, a), always)
    ensures always ==> !After(m, a).removing
  {
    hide Unused;
    hide HandlersOk;
    hide HandlersApart;
    hide KeysAreIds;
    var r := After(m, a);
    forall s | 0 <= s < |r.table| && r.table[s].added > 0 && (always || !r.table[s].complete) ensures Findable(r, s) {
      if s < |m.table| {
        assert m.table[s].added > 0 && (always || !m.table[s].complete) ==> Findable(m, s);
      }
    }
  }

  lemma {:induction false} FindableExecute(m: Manager, schedule: seq<Action>, always: bool)
    requires Inv(m) && AddedFindable(m, always) && NeverCloses(schedule) && Execute(m, schedule).Some?
    requires always ==> !m.removing && NeverRemoves(schedule)
    ensures AddedFindable(Execute(m, schedule).value, always)
    decreases |schedule|
  {
    hide After;
    hide Inv;
    hide AddedFindable;
    if schedule != [] {
      FindableStep(m, schedule[0], always);
      InvStep(m, schedule[0]);
      FindableExecute(After(m, schedule[0]), schedule[1..], always);
    }
  }

  /** Until the manager is closed, every session that was added and is not complete is in
      the map under its id, so that a connection asking for it finds it; with removal
      off from the beginning complete ones are there as well. */
  lemma AddedAreFound(removing: bool, schedule: seq<Action>, s: nat, c: nat)
    requires NeverCloses(schedule) && Execute(Start(removing), schedule).Some?
    requires var m := Execute(Start(removing), schedule).value;
             && s < |m.table| && m.table[s].added > 0
             && (!m.table[s].complete || (!removing && NeverRemoves(schedule)))
             && c < |m.handlers| && m.handlers[c].Reading?
    ensures var m := Execute(Start(removing), schedule).value;
            && Findable(m, s)
            && After(m, Lookup(c, m.table[s].id)).handlers[c] == Found(m.table[s].id, s, None)
  {
    hide Execute;
    hide Inv;
    StartInv(removing);
    var m := Execute(Start(removing), schedule).value;
    FindableExecute(Start(removing), schedule, !removing && NeverRemoves(schedule));
    assert Findable(m, s);
  }

  lemma StartInv(removing: bool)
    ensures Inv(Start(removing)) && forall always :: AddedFindable(Start(removing), always)
  {
  }

  /** Closing the manager forgets all sessions. */
  lemma ClosedForgets(m: Manager, s: nat)
    ensures !Findable(After(m, CloseManager), s)
  {
  }

  /** Messages of a connection go to its session and to no other. */
  lemma MessageReachesSession(m: Manager, c: nat, completes: bool)
    requires Enabled(m, Message(c, completes)) || Enabled(m, FirstBlob(c, completes))
    ensures var s := m.handlers[c].s;
            var r := After(m, if m.handlers[c].Listening? then Message(c, completes) else FirstBlob(c, completes));
            && |r.table| == |m.table| && r.table[s].fed && (r.table[s].complete <==> m.table[s].complete || completes)
            && r.table[s].owners == m.table[s].owners && r.table[s].added == m.table[s].added
            && (forall t :: 0 <= t < |m.table| && t != s ==> r.table[t] == m.table[t])
            && (forall id :: id in r.sessions ==> id in m.sessions && r.sessions[id] == m.sessions[id])
            && (forall id :: id in m.sessions && id !in r.sessions ==> id == m.table[s].id && completes && m.removing)
  {
  }

  /** A connection can always be served: one that asks for a findable session without a
      connection ends up listening for it, with its first bytes fed before. */
  lemma ConnectionIsServed(m: Manager, s: nat, c: nat, completes: bool)
    requires Inv(m) && Findable(m, s) && m.table[s].owners == 0
    requires c < |m.handlers| && m.handlers[c].Reading?
    ensures var id := m.table[s].id;
            var schedule := [Lookup(c, id), FirstBlob(c, completes), SetConn(c)];
            Execute(m, schedule).Some? &&
            var r := Execute(m, schedule).value;
            && c < |r.handlers| && r.handlers[c] == Listening(id, s, None)
            && s < |r.table| && r.table[s].fed && r.table[s].owners == 1
  {
    hide Inv;
    var id := m.table[s].id;
    var m1 := After(m, Lookup(c, id));
    var m2 := After(m1, FirstBlob(c, completes));
    ExecuteThree(m, Lookup(c, id), FirstBlob(c, completes), SetConn(c));
  }

  lemma ExecuteThree(m: Manager, a: Action, b: Action, c: Action)
    requires Enabled(m, a) && Enabled(After(m, a), b) && Enabled(After(After(m, a), b), c)
    ensures Execute(m, [a, b, c]) == Some(After(After(After(m, a), b), c))
  {
    hide After;
    hide Enabled;
    assert [a, b, c][1..] == [b, c] && [b, c][1..] == [c] && [c][1..] == [];
    var m1 := After(m, a);
    var m2 := After(m1, b);
    assert Execute(m2, [c]) == Execute(After(m2, c), []);
    assert Execute(m1, [b, c]) == Execute(m2, [c]);
  }

  /** A connection whose session is not found gets one of its own. */
  lemma StrangerIsServed(m: Manager, asked: string, id: string, c: nat, completes: bool)
    requires Inv(m) && asked !in m.sessions && Unused(m, id) && c < |m.handlers| && m.handlers[c].Reading?
    ensures var m1 := After(m, Lookup(c, asked));
            Enabled(m1, CreateRemote(c, id)) &&
            var m2 := After(m1, CreateRemote(c, id));
            Enabled(m2, AddRemote(c)) &&
            var m3 := After(m2, AddRemote(c));
            && Findable(m3, |m.table|) && m3.table[|m.table|].id == id
            && Execute(m3, [FirstBlob(c, completes), SetConn(c)]).Some?
            && var r := Execute(m3, [FirstBlob(c, completes), SetConn(c)]).value;
               c < |r.handlers| && r.handlers[c] == Listening(asked, |m.table|, Some(|m.table|))
  {
    hide Inv;
    hide Unused;
    StillUnused(m, c, asked, id);
    var m3 := After(After(After(m, Lookup(c, asked)), CreateRemote(c, id)), AddRemote(c));
    ExecuteTwo(m3, FirstBlob(c, completes), SetConn(c));
  }

  lemma StillUnused(m: Manager, c: nat, asked: string, id: string)
    requires Unused(m, id) && c < |m.handlers| && m.handlers[c].Reading?
    ensures Unused(After(m, Lookup(c, asked)), id)
  {
  }

  lemma ExecuteTwo(m: Manager, a: Action, b: Action)
    requires Enabled(m, a) && Enabled(After(m, a), b)
    ensures Execute(m, [a, b]) == Some(After(After(m, a), b))
  {
    hide After;
    hide Enabled;
    assert [a, b][1..] == [b] && [b][1..] == [];
    assert Execute(After(m, a), [b]) == Execute(After(After(m, a), b), []);
  }

  /** A started session is found under its id from then on. */
  lemma StartedIsFindable(m: Manager, id: string)
    requires Inv(m) && Unused(m, id)
    ensures var s := |m.table|;
            Execute(m, [StartSession(id), AddStarted(s)]).Some? &&
            var r := Execute(m, [StartSession(id), AddStarted(s)]).value;
            Findable(r, s) && r.table[s] == Entry(id, 1, 0, false, false, false)
  {
    hide Inv;
    ExecuteTwo(m, StartSession(id), AddStarted(|m.table|));
  }

  /** A new connection is always accepted, and may ask for any id. */
  lemma AnyoneMayAsk(m: Manager, id: string)
    ensures Enabled(m, Accept)
    ensures var r := After(m, Accept);
            && r.handlers == m.handlers + [Reading] && Enabled(r, Lookup(|m.handlers|, id))
            && (id !in m.sessions ==>
                  After(r, Lookup(|m.handlers|, id)).handlers[|m.handlers|] == Missing(id, Some(|m.table|)))
  {
  }

  /** Switching removal on works from then on: if no session in the map is complete at
      that time, none ever is, until it is switched off. */
  lemma RemovalFromThenOn(removing: bool, before: seq<Action>, after: seq<Action>)
    requires Execute(Start(removing), before).Some? && NoneComplete(Execute(Start(removing), before).value)
    requires var m := After(Execute(Start(removing), before).value, SetRemoving(true));
             Execute(m, after).Some? && KeepsRemoving(after)
    ensures NoneComplete(Execute(After(Execute(Start(removing), before).value, SetRemoving(true)), after).value)
  {
    hide Execute;
    hide Inv;
    StartInv(removing);
    InvExecute(Start(removing), before);
    var m := Execute(Start(removing), before).value;
    InvStep(m, SetRemoving(true));
    RemovalExecute(After(m, SetRemoving(true)), after);
  }
}
