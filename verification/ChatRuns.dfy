/** Theorems about whole runs of the chat server. */
module ChatRuns {
  import opened Options
  import opened CStrings
  import opened ChatCodec
  import opened ChatModel
  import opened ChatInvariants

  // ---------------------------------------------------------------------------------------------
  // Broadcasts
  // ---------------------------------------------------------------------------------------------

  /** The copies the loop of broadcast number `r` has appended. */
  function Copies(posted: seq<Posting>, r: nat): seq<Mail> {
    if posted == [] then []
    else (if posted[0].origin == Copy(r) then [posted[0].mail] else []) + Copies(posted[1..], r)
  }

  /** One copy of `m` for each of the first `n` users but its sender. */
  function CopiesFor(users: seq<User>, m: Mail, n: nat): seq<Mail>
    requires n <= |users|
  {
    if n == 0 then []
    else CopiesFor(users, m, n - 1) + CopyFor(users[n - 1], m)
  }

  function CopyFor(u: User, m: Mail): seq<Mail> {
    if u.username == m.from then [] else [Mail(u.id, m.from, m.text)]
  }

  lemma TypeOfCopy(u: User, m: Mail, t: int)
    ensures u.id == t ==> OfType(CopyFor(u, m), t) == CopyFor(u, m)
    ensures u.id != t ==> OfType(CopyFor(u, m), t) == []
  {
    OfTypeOne(Mail(u.id, m.from, m.text), t);
  }

  ghost predicate RoundDone(st: State, r: nat)
    requires r < |st.rounds|
  {
    && st.rounds[r].users <= |st.users|
    && Copies(st.posted, r) == CopiesFor(st.users, st.rounds[r].mail, st.rounds[r].users)
  }

  /** Every finished broadcast has posted its copies; the one in progress, those of the users passed so far. */
  ghost predicate Fanned(st: State) {
    && (forall r :: 0 <= r < |st.rounds| ==> RoundDone(st, r))
    && (st.fan.Fanning? ==>
          && st.fan.next <= |st.users|
          && Copies(st.posted, |st.rounds|) == CopiesFor(st.users, st.fan.mail, st.fan.next))
    && (forall r :: (if st.fan.Fanning? then |st.rounds| < r else |st.rounds| <= r) ==> Copies(st.posted, r) == [])
  }

  lemma {:induction false} CopiesAppend(a: seq<Posting>, p: Posting, r: nat)
    ensures Copies(a + [p], r) == Copies(a, r) + if p.origin == Copy(r) then [p.mail] else []
  {
    var all := a + [p];
    if a == [] {
      assert all == [p] && [p][1..] == [];
    } else {
      CopiesAppend(a[1..], p, r);
      assert all[0] == a[0] && all[1..] == a[1..] + [p];
      var first := if a[0].origin == Copy(r) then [a[0].mail] else [];
      var last := if p.origin == Copy(r) then [p.mail] else [];
      assert Copies(all, r) == first + (Copies(a[1..], r) + last);
    }
  }

  lemma {:induction false} CopiesForGrown(a: seq<User>, b: seq<User>, m: Mail, n: nat)
    requires Grown(a, b) && n <= |a|
    ensures CopiesFor(a, m, n) == CopiesFor(b, m, n)
  {
    if n > 0 {
      assert SameUser(a[n - 1], b[n - 1]);
      CopiesForGrown(a, b, m, n - 1);
    }
  }

  /** A step that moves neither the broadcaster nor its record, and posts no copy. */
  lemma OtherStepKeepsFanned(st: State, st': State)
    requires Fanned(st) && Grown(st.users, st'.users) && st'.fan == st.fan && st'.rounds == st.rounds
    requires st'.posted == st.posted
             || (|st'.posted| == |st.posted| + 1 && st'.posted[..|st.posted|] == st.posted
                 && !st'.posted[|st.posted|].origin.Copy?)
    ensures Fanned(st')
  {
    forall r: nat ensures Copies(st'.posted, r) == Copies(st.posted, r) {
      if st'.posted != st.posted {
        assert st'.posted == st.posted + [st'.posted[|st.posted|]];
        CopiesAppend(st.posted, st'.posted[|st.posted|], r);
      }
    }
    forall r | 0 <= r < |st'.rounds| ensures RoundDone(st', r) {
      assert RoundDone(st, r);
      CopiesForGrown(st.users, st'.users, st.rounds[r].mail, st.rounds[r].users);
    }
    if st.fan.Fanning? {
      CopiesForGrown(st.users, st'.users, st.fan.mail, st.fan.next);
    }
  }

  lemma FanStepKeepsFanned(st: State)
    requires Fanned(st) && Enabled(st, FanStep)
    ensures Fanned(Next(st, FanStep))
  {
    var st' := Next(st, FanStep);
    var u, m := st.users[st.fan.next], st.fan.mail;
    if m.from != u.username {
      forall r: nat
        ensures Copies(st'.posted, r)
                == Copies(st.posted, r) + if r == |st.rounds| then [Mail(u.id, m.from, m.text)] else []
      {
        CopiesAppend(st.posted, Posting(Mail(u.id, m.from, m.text), Copy(|st.rounds|)), r);
      }
    }
    forall r | 0 <= r < |st'.rounds| ensures RoundDone(st', r) {
      assert RoundDone(st, r);
    }
  }

  lemma FanEndKeepsFanned(st: State)
    requires Fanned(st) && Enabled(st, FanEnd)
    ensures Fanned(Next(st, FanEnd))
  {
    var st' := Next(st, FanEnd);
    forall r | 0 <= r < |st'.rounds| ensures RoundDone(st', r) {
      assert r < |st.rounds| ==> RoundDone(st, r);
    }
  }

  lemma StepKeepsFanned(st: State, step: Step)
    requires Registry(st.users) && Fanned(st) && Enabled(st, step)
    ensures Fanned(Next(st, step))
  {
    hide Fanned, Registry;
    if step.FanStep? {
      FanStepKeepsFanned(st);
    } else if step.FanEnd? {
      FanEndKeepsFanned(st);
    } else if step.FanStart? {
      FanStartKeepsFanned(st);
    } else {
      StepGrows(st, step);
      OtherStepKeepsFanned(st, Next(st, step));
    }
  }

  lemma FanStartKeepsFanned(st: State)
    requires Fanned(st) && Enabled(st, FanStart)
    ensures Fanned(Next(st, FanStart))
  {
    var st' := Next(st, FanStart);
    forall r | 0 <= r < |st'.rounds| ensures RoundDone(st', r) {
      assert RoundDone(st, r);
    }
  }

  function RoundMails(rounds: seq<Round>): seq<Mail> {
    seq(|rounds|, i requires 0 <= i < |rounds| => rounds[i].mail)
  }

  /** The rounds are the messages taken from the broadcast mailbox, in order, the last of them perhaps in progress. */
  ghost predicate Rounded(st: State) {
    OfType(TakenMails(st.taken), BROADCAST) == RoundMails(st.rounds) + InFlight(st)
  }

  function InFlight(st: State): seq<Mail> {
    if st.fan.Fanning? then [st.fan.mail] else []
  }

  lemma TakenAppend(taken: seq<Delivery>, d: Delivery, t: int)
    ensures OfType(TakenMails(taken + [d]), t)
            == OfType(TakenMails(taken), t) + if d.mail.mtype == t then [d.mail] else []
  {
    assert TakenMails(taken + [d]) == TakenMails(taken) + [d.mail];
    OfTypeAppend(TakenMails(taken), [d.mail], t);
    OfTypeOne(d.mail, t);
  }

  /** A listener takes nothing from the broadcast mailbox. */
  lemma ListenKeepsRounded(st: State, s: nat)
    requires Registry(st.users) && Rounded(st) && CanListen(st, s)
    ensures Rounded(ListenStep(st, s))
  {
    hide OfType;
    var i := FirstOf(st.queue, Owner(st, s).id).value;
    RegistryAt(st.users, st.sessions[s].user);
    hide Registry;
    TakenAppend(st.taken, Delivery(Listener(s), st.queue[i], false), BROADCAST);
    TakenAppend(st.taken, Delivery(Listener(s), st.queue[i], true), BROADCAST);
  }

  lemma StepKeepsRounded(st: State, step: Step)
    requires Registry(st.users) && Rounded(st) && Enabled(st, step)
    ensures Rounded(Next(st, step))
  {
    hide OfType, Registry;
    match step
    case Listen(s) => ListenKeepsRounded(st, s);
    case FanStart =>
      var i := FirstOf(st.queue, BROADCAST).value;
      TakenAppend(st.taken, Delivery(Broadcaster, st.queue[i], false), BROADCAST);
    case FanEnd =>
      assert RoundMails(st.rounds + [Round(st.fan.mail, |st.users|)]) == RoundMails(st.rounds) + [st.fan.mail];
    case _ =>
  }

  /** In every reachable state: the messages ever posted for all users are those of the finished broadcasts, then the
      one being copied, then those still queued, in order. */
  lemma BroadcastsInOrder(st: State)
    requires Reachable(st)
    ensures OfType(PostedMails(st.posted), BROADCAST)
            == RoundMails(st.rounds) + InFlight(st) + OfType(st.queue, BROADCAST)
  {
    ReachableIsGood(st);
    assert ConservedFor(st, BROADCAST);
  }

  // ---------------------------------------------------------------------------------------------
  // Every reachable state
  // ---------------------------------------------------------------------------------------------

  ghost predicate Good(st: State) {
    Senders(st) && Conserved(st) && Delivered(st) && Fanned(st) && Rounded(st)
  }

  lemma {:induction false} RunKeepsGood(st: State, steps: seq<Step>)
    requires Good(st) && CanRun(st, steps)
    ensures Good(Run(st, steps))
    decreases |steps|
  {
    hide Senders, Conserved, Delivered, Fanned, Rounded, Next, Enabled;
    if steps != [] {
      assert Registry(st.users) by { SendersRegistry(st); }
      StepKeepsSenders(st, steps[0]);
      StepConserves(st, steps[0]);
      StepDelivers(st, steps[0]);
      StepKeepsFanned(st, steps[0]);
      StepKeepsRounded(st, steps[0]);
      RunKeepsGood(Next(st, steps[0]), steps[1..]);
    }
  }

  lemma SendersRegistry(st: State)
    requires Senders(st)
    ensures Registry(st.users)
  {
  }

  lemma InitIsGood()
    ensures Good(INIT)
  {
    assert forall t :: ConservedFor(INIT, t);
  }

  /** A state some run from the empty server reaches. */
  ghost predicate Reachable(st: State) {
    exists steps :: CanRun(INIT, steps) && Run(INIT, steps) == st
  }

  /** In every reachable state: ids are positions plus two, usernames are distinct, every id is a slot of the block
      table and is not the broadcast type, and the sender of every queued or in-flight message can be found. */
  lemma RegistryInvariant(st: State)
    requires Reachable(st)
    ensures forall i :: 0 <= i < |st.users| ==>
              && st.users[i].id == i + 2 && st.users[i].id != BROADCAST
              && forall u :: u in st.users ==> st.users[i].id < |u.blocked|
    ensures forall i, j :: 0 <= i < j < |st.users| ==> st.users[i].username != st.users[j].username
    ensures forall m :: m in st.queue ==> Find(st.users, m.from).Some?
    ensures st.fan.Fanning? ==> Find(st.users, st.fan.mail.from).Some?
  {
    ReachableIsGood(st);
    assert forall i :: 0 <= i < |st.users| ==> GoodUser(st.users[i], i);
    assert forall k :: 0 <= k < |st.queue| ==> GoodMail(st.users, st.queue[k]);
  }

  lemma ReachableIsGood(st: State)
    requires Reachable(st)
    ensures Good(st)
  {
    hide Good;
    var steps :| CanRun(INIT, steps) && Run(INIT, steps) == st;
    InitIsGood();
    RunKeepsGood(INIT, steps);
  }

  /** In every reachable state, for every mailbox: what was posted to it is what was taken from it followed by what
      it holds; only its owner's sessions have taken from it, and the broadcaster only from the broadcast mailbox; and
      each session has forwarded exactly what it took and did not drop. */
  lemma MailboxConservation(st: State)
    requires Reachable(st)
    ensures forall t :: OfType(PostedMails(st.posted), t) == OfType(TakenMails(st.taken), t) + OfType(st.queue, t)
    ensures forall k :: 0 <= k < |st.taken| && st.taken[k].taker.Listener? ==>
              var s := st.taken[k].taker.session;
              s < |st.sessions| && st.sessions[s].user < |st.users|
              && st.taken[k].mail.mtype == st.users[st.sessions[s].user].id
    ensures forall k :: 0 <= k < |st.taken| && st.taken[k].taker.Broadcaster? ==> st.taken[k].mail.mtype == BROADCAST
    ensures forall s :: 0 <= s < |st.sessions| ==> st.sessions[s].wire == LinesOf(st.users, st.taken, s)
  {
    ReachableIsGood(st);
    forall t ensures OfType(PostedMails(st.posted), t) == OfType(TakenMails(st.taken), t) + OfType(st.queue, t) {
      assert ConservedFor(st, t);
    }
    assert forall k :: 0 <= k < |st.taken| ==> TakenByOwner(st, st.taken[k]);
  }

  lemma RegistryAt(users: seq<User>, i: nat)
    requires Registry(users) && i < |users|
    ensures GoodUser(users[i], i)
  {
  }

  lemma {:induction false} CopiesForUser(users: seq<User>, m: Mail, n: nat, i: nat)
    requires Registry(users) && n <= |users| && i < |users|
    ensures i < n ==> OfType(CopiesFor(users, m, n), i + 2) == CopyFor(users[i], m)
    ensures i >= n ==> OfType(CopiesFor(users, m, n), i + 2) == []
  {
    hide Registry, OfType, CopyFor;
    if n == 0 {
      OfTypeNone([], i + 2);
    } else {
      CopiesForUser(users, m, n - 1, i);
      RegistryAt(users, n - 1);
      assert GoodUser(users[n - 1], n - 1);
      OfTypeAppend(CopiesFor(users, m, n - 1), CopyFor(users[n - 1], m), i + 2);
      TypeOfCopy(users[n - 1], m, i + 2);
    }
  }

  lemma {:induction false} CopiesForOthers(users: seq<User>, m: Mail, n: nat, t: int)
    requires Registry(users) && n <= |users| && (t < 2 || n + 2 <= t)
    ensures OfType(CopiesFor(users, m, n), t) == []
  {
    hide Registry, OfType, CopyFor;
    if n == 0 {
      OfTypeNone([], t);
    } else {
      CopiesForOthers(users, m, n - 1, t);
      RegistryAt(users, n - 1);
      assert GoodUser(users[n - 1], n - 1);
      OfTypeAppend(CopiesFor(users, m, n - 1), CopyFor(users[n - 1], m), t);
      TypeOfCopy(users[n - 1], m, t);
    }
  }

  /** In every reachable state, every finished broadcast has posted exactly one copy to each user who was registered
      when it ended, except the sender, and none to the sender, to later users or to any other mailbox. */
  lemma BroadcastExactlyOnce(st: State, r: nat, i: nat)
    requires Reachable(st) && r < |st.rounds| && i < |st.users|
    ensures var m := st.rounds[r].mail;
            OfType(Copies(st.posted, r), st.users[i].id)
            == if i < st.rounds[r].users && st.users[i].username != m.from
               then [Mail(st.users[i].id, m.from, m.text)] else []
    ensures forall t :: t < 2 || st.rounds[r].users + 2 <= t ==> OfType(Copies(st.posted, r), t) == []
  {
    ReachableIsGood(st);
    assert RoundDone(st, r);
    forall t | t < 2 || st.rounds[r].users + 2 <= t ensures OfType(Copies(st.posted, r), t) == [] {
      CopiesForOthers(st.users, st.rounds[r].mail, st.rounds[r].users, t);
    }
    assert GoodUser(st.users[i], i);
    CopiesForUser(st.users, st.rounds[r].mail, st.rounds[r].users, i);
  }

  // ---------------------------------------------------------------------------------------------
  // Registration and login
  // ---------------------------------------------------------------------------------------------

  /** Some step of the run registered this name and password, the name being free. */
  ghost predicate Registered(st: State, steps: seq<Step>, name: string, password: string)
    requires CanRun(st, steps)
    decreases |steps|
  {
    steps != [] &&
    (CreatedBy(st, steps[0], name, password) || Registered(Next(st, steps[0]), steps[1..], name, password))
  }

  /** create_new_user returns 1 for this name and password. */
  ghost predicate CreatedBy(st: State, step: Step, name: string, password: string) {
    && step.Register? && |Fields(step.line)| >= 4
    && Fields(step.line)[0] == name && Fields(step.line)[1] == password
    && Find(st.users, name).None?
  }

  lemma FindAppend(users: seq<User>, u: User, name: string)
    ensures Find(users + [u], name)
            == if Find(users, name).Some? then Find(users, name)
               else if u.username == name then Some(|users|) else None
  {
    var r := Find(users + [u], name);
    assert (users + [u])[|users|] == u;
    assert forall j :: 0 <= j < |users| ==> (users + [u])[j] == users[j];
  }

  lemma VerifyGrown(a: seq<User>, b: seq<User>, name: string, password: string)
    requires Grown(a, b) && Find(a, name).Some?
    ensures Verify(a, name, password) == Verify(b, name, password)
  {
    FindGrown(a, b, name);
    assert SameUser(a[Find(a, name).value], b[Find(b, name).value]);
  }

  lemma FindSameNames(a: seq<User>, b: seq<User>, name: string)
    requires |a| == |b| && forall i :: 0 <= i < |a| ==> SameUser(a[i], b[i])
    ensures Find(a, name) == Find(b, name)
  {
    var r, q := Find(a, name), Find(b, name);
    assert forall i :: 0 <= i < |a| ==> a[i].username == b[i].username;
  }

  /** One step changes whether a name and password verify only by creating that user. */
  lemma VerifyStep(st: State, step: Step, name: string, password: string)
    requires Registry(st.users) && Enabled(st, step)
    ensures Verify(Next(st, step).users, name, password).Some?
            <==> Verify(st.users, name, password).Some? || CreatedBy(st, step, name, password)
  {
    StepGrows(st, step);
    var users := Next(st, step).users;
    if Find(st.users, name).Some? {
      VerifyGrown(st.users, users, name, password);
    } else if step.Register? && Find(st.users, Fields(step.line)[0]).None? {
      FindAppend(st.users, NewUser(Fields(step.line), |st.users|), name);
    } else {
      FindSameNames(st.users, users, name);
    }
  }

  lemma {:induction false} VerifyRun(st: State, steps: seq<Step>, name: string, password: string)
    requires Registry(st.users) && CanRun(st, steps)
    ensures Verify(Run(st, steps).users, name, password).Some?
            <==> Verify(st.users, name, password).Some? || Registered(st, steps, name, password)
    decreases |steps|
  {
    hide Registry, Verify, CreatedBy, Enabled, Next;
    if steps != [] {
      VerifyStep(st, steps[0], name, password);
      StepGrows(st, steps[0]);
      VerifyRun(Next(st, steps[0]), steps[1..], name, password);
    }
  }

  /** After any run, a login line "name;password" is accepted exactly when some step of the run created that user
      with that password. */
  lemma LoginIffRegistered(steps: seq<Step>, name: string, password: string)
    requires CanRun(INIT, steps) && IsField(name) && IsField(password)
    ensures var f := Fields(name + ";" + password);
            |f| == 2 && (Verify(Run(INIT, steps).users, f[0], f[1]).Some? <==> Registered(INIT, steps, name, password))
  {
    FieldsCons(name, password);
    FieldsLast(password);
    VerifyRun(INIT, steps, name, password);
  }

  // ---------------------------------------------------------------------------------------------
  // Blocking
  // ---------------------------------------------------------------------------------------------

  /** User number `u` blocks user number `v`. */
  ghost predicate Blocks(st: State, u: nat, v: nat) {
    && u < |st.users| && v < |st.users|
    && 0 <= st.users[v].id < |st.users[u].blocked|
    && st.users[u].blocked[st.users[v].id] != 0
  }

  /** The step is an unblock request of user `u` that names user `v`. */
  ghost predicate Unblocks(st: State, step: Step, u: nat, v: nat) {
    && step.Unblock? && Enabled(st, step)
    && st.sessions[step.s].user == u && Find(st.users, Fields(step.line)[1]) == Some(v)
  }

  ghost predicate BlocksBy(st: State, step: Step, u: nat, v: nat) {
    && step.Block? && Enabled(st, step)
    && st.sessions[step.s].user == u && Find(st.users, Fields(step.line)[1]) == Some(v)
  }

  /** A step changes whether u blocks v only if it is u's own request about v, and then as requested. */
  lemma BlockingStep(st: State, step: Step, u: nat, v: nat)
    requires Registry(st.users) && Enabled(st, step) && u < |st.users| && v < |st.users|
    ensures Blocks(Next(st, step), u, v)
            <==> BlocksBy(st, step, u, v) || (Blocks(st, u, v) && !Unblocks(st, step, u, v))
  {
    if step.Block? {
      MarkBlocks(st, step.s, step.line, 1, u, v);
    } else if step.Unblock? {
      MarkBlocks(st, step.s, step.line, 0, u, v);
    } else {
      hide Fields, Find, Registry;
      assert Next(st, step).users[u] == st.users[u] && Next(st, step).users[v] == st.users[v];
    }
  }

  /** A block or unblock request sets the one bit it is about. */
  lemma MarkBlocks(st: State, s: nat, line: string, bit: int, u: nat, v: nat)
    requires Registry(st.users) && CanMark(st, s, line) && u < |st.users| && v < |st.users|
    ensures var p := Find(st.users, Fields(line)[1]);
            if st.sessions[s].user == u && p == Some(v) then Blocks(Mark(st, s, line, bit), u, v) <==> bit != 0
            else Blocks(Mark(st, s, line, bit), u, v) <==> Blocks(st, u, v)
  {
    var p := Find(st.users, Fields(line)[1]).value;
    RegistryAt(st.users, u);
    RegistryAt(st.users, v);
    RegistryAt(st.users, p);
    var w := st.sessions[s].user;
    var st' := Mark(st, s, line, bit);
    assert st'.users == st.users[w := st.users[w].(blocked := st.users[w].blocked[p + 2 := bit])];
    hide Registry, Fields, Find, Mark, CanMark;
    assert st'.users[v].id == st.users[v].id;
  }

  /** The step is a request of u that changes whether u blocks v. */
  ghost predicate Changes(st: State, step: Step, u: nat, v: nat, blocked: bool) {
    if blocked then Unblocks(st, step, u, v) else BlocksBy(st, step, u, v)
  }

  /** No step of the run is such a request. */
  ghost predicate NeverChanges(st: State, steps: seq<Step>, u: nat, v: nat, blocked: bool)
    requires CanRun(st, steps)
    decreases |steps|
  {
    steps == []
    || (!Changes(st, steps[0], u, v, blocked) && NeverChanges(Next(st, steps[0]), steps[1..], u, v, blocked))
  }

  /** Every message from v that a session of u takes at or after position `k` is dropped, or every one is forwarded. */
  ghost predicate AllFiltered(st: State, k: nat, u: nat, v: nat, blocked: bool) {
    u < |st.users| && v < |st.users|
    && forall j :: k <= j < |st.taken| ==> IsFiltered(st, st.taken[j], u, v, blocked)
  }

  ghost predicate IsFiltered(st: State, d: Delivery, u: nat, v: nat, blocked: bool)
    requires v < |st.users|
  {
    FromTo(st, d, u, v) ==> d.dropped == blocked
  }

  /** A session of u has taken a message from v. */
  ghost predicate FromTo(st: State, d: Delivery, u: nat, v: nat)
    requires v < |st.users|
  {
    && d.taker.Listener? && d.taker.session < |st.sessions| && st.sessions[d.taker.session].user == u
    && d.mail.from == st.users[v].username
  }

  lemma FindSelf(users: seq<User>, v: nat)
    requires Registry(users) && v < |users|
    ensures Find(users, users[v].username) == Some(v)
  {
    var r := Find(users, users[v].username);
    assert r.Some?;
  }

  lemma ListenFilters(st: State, s: nat, u: nat, v: nat)
    requires Registry(st.users) && CanListen(st, s) && u < |st.users| && v < |st.users|
    ensures IsFiltered(ListenStep(st, s), ListenStep(st, s).taken[|st.taken|], u, v, Blocks(st, u, v))
  {
    FindSelf(st.users, v);
  }

  /** The step takes at most one message, and if it is from v for u, it drops it exactly when u blocks v. */
  lemma StepFilters(st: State, step: Step, k: nat, u: nat, v: nat, blocked: bool)
    requires Senders(st) && Delivered(st) && Enabled(st, step) && Blocks(st, u, v) == blocked && k <= |st.taken|
    requires AllFiltered(st, k, u, v, blocked)
    ensures AllFiltered(Next(st, step), k, u, v, blocked) && k <= |Next(st, step).taken|
  {
    hide Registry, Grown, Delivered, Blocks, SessionsKept, Find, Fields, FirstOf, Decode, IncomingLine;
    StepGrows(st, step);
    var st' := Next(st, step);
    GrownAt(st.users, st'.users, v);
    if step.Listen? {
      ListenFilters(st, step.s, u, v);
    }
    StepTakes(st, step);
    forall j | k <= j < |st'.taken| ensures IsFiltered(st', st'.taken[j], u, v, blocked) {
      if j < |st.taken| {
        OldFiltered(st, st', k, j, u, v, blocked);
      }
    }
  }

  /** What has been taken stays on record, and only listeners and the broadcaster take. */
  lemma StepTakes(st: State, step: Step)
    requires Enabled(st, step)
    ensures var st' := Next(st, step);
            && SessionsKept(st.sessions, st'.sessions) && |st.taken| <= |st'.taken|
            && (forall j :: 0 <= j < |st.taken| ==> st'.taken[j] == st.taken[j])
            && (forall j :: |st.taken| <= j < |st'.taken| ==>
                  j == |st.taken| && (step.Listen? || st'.taken[j].taker.Broadcaster?))
  {
    hide Find, Fields, FirstOf, Decode, IncomingLine;
  }

  lemma OldFiltered(st: State, st': State, k: nat, j: nat, u: nat, v: nat, blocked: bool)
    requires Delivered(st) && AllFiltered(st, k, u, v, blocked) && k <= j < |st.taken|
    requires SessionsKept(st.sessions, st'.sessions) && v < |st'.users| && SameUser(st.users[v], st'.users[v])
    ensures IsFiltered(st', st.taken[j], u, v, blocked)
  {
    if st.taken[j].taker.Listener? {
      TakenSessionExists(st, j);
    }
    hide Delivered;
    assert IsFiltered(st, st.taken[j], u, v, blocked);
  }

  lemma GrownAt(a: seq<User>, b: seq<User>, v: nat)
    requires Grown(a, b) && v < |a|
    ensures v < |b| && SameUser(a[v], b[v]) && |a| <= |b|
  {
  }

  lemma TakenSessionExists(st: State, j: nat)
    requires Delivered(st) && j < |st.taken| && st.taken[j].taker.Listener?
    ensures st.taken[j].taker.session < |st.sessions|
  {
    assert TakenByOwner(st, st.taken[j]);
  }

  /** Block isolation: while u blocks v and does not unblock v, whatever else happens, no private or broadcast
      message from v is forwarded to any session of u, and u goes on blocking v. While u does not block v, none is
      dropped. */
  lemma {:induction false} BlockIsolation(st: State, steps: seq<Step>, k: nat, u: nat, v: nat, blocked: bool)
    requires Good(st) && CanRun(st, steps) && NeverChanges(st, steps, u, v, blocked)
    requires Blocks(st, u, v) == blocked && k <= |st.taken| && AllFiltered(st, k, u, v, blocked)
    ensures Blocks(Run(st, steps), u, v) == blocked && AllFiltered(Run(st, steps), k, u, v, blocked)
    decreases |steps|
  {
    hide Good, Enabled, Next, AllFiltered, Blocks, Senders, Registry;
    if steps != [] {
      InTable(st, k, u, v, blocked);
      GoodParts(st);
      SendersRegistry(st);
      BlockingStep(st, steps[0], u, v);
      StepFilters(st, steps[0], k, u, v, blocked);
      RunKeepsGood(st, [steps[0]]);
      RunOne(st, steps[0]);
      BlockIsolation(Next(st, steps[0]), steps[1..], k, u, v, blocked);
    }
  }

  lemma InTable(st: State, k: nat, u: nat, v: nat, blocked: bool)
    requires AllFiltered(st, k, u, v, blocked)
    ensures u < |st.users| && v < |st.users|
  {
  }

  lemma GoodParts(st: State)
    requires Good(st)
    ensures Senders(st) && Delivered(st)
  {
  }

  lemma RunOne(st: State, step: Step)
    requires Enabled(st, step)
    ensures CanRun(st, [step]) && Run(st, [step]) == Next(st, step)
  {
    assert [step][1..] == [];
  }

  /** From the step by which u blocks v on, until u unblocks v, nothing v sent is forwarded to u. */
  lemma BlockedUntilUnblocked(st: State, step: Step, steps: seq<Step>, u: nat, v: nat)
    requires Reachable(st) && BlocksBy(st, step, u, v)
    requires CanRun(Next(st, step), steps) && NeverChanges(Next(st, step), steps, u, v, true)
    ensures var end := Run(Next(st, step), steps);
            && v < |end.users|
            && forall j :: |st.taken| <= j < |end.taken| && FromTo(end, end.taken[j], u, v) ==> end.taken[j].dropped
  {
    ReachableIsGood(st);
    GoodParts(st);
    SendersRegistry(st);
    RunOne(st, step);
    RunKeepsGood(st, [step]);
    BlockingStep(st, step, u, v);
    var st' := Next(st, step);
    assert |st'.taken| == |st.taken|;
    BlockIsolation(st', steps, |st.taken|, u, v, true);
    var end := Run(st', steps);
    assert forall j :: |st.taken| <= j < |end.taken| ==> IsFiltered(end, end.taken[j], u, v, true);
  }

  // ---------------------------------------------------------------------------------------------
  // From keyboard to screen
  // ---------------------------------------------------------------------------------------------

  /** What a client should show: the messages its session took and did not drop, under the senders' first names. */
  function NoticesOf(users: seq<User>, taken: seq<Delivery>, s: nat): seq<Notice> {
    if taken == [] then []
    else (if taken[0].taker == Listener(s) && !taken[0].dropped
          then [Incoming(SenderName(users, taken[0].mail.from), taken[0].mail.text)] else [])
         + NoticesOf(users, taken[1..], s)
  }

  ghost predicate Shows(lines: seq<string>, notices: seq<Notice>) {
    |lines| == |notices| && forall j :: 0 <= j < |lines| ==> Show(lines[j]) == Some(notices[j])
  }

  lemma {:induction false} LinesShow(st: State, taken: seq<Delivery>, s: nat)
    requires Registry(st.users) && forall k :: 0 <= k < |taken| ==> TakenByOwner(st, taken[k])
    ensures Shows(LinesOf(st.users, taken, s), NoticesOf(st.users, taken, s))
  {
    hide Registry;
    if taken != [] {
      var d := taken[0];
      assert TakenByOwner(st, d);
      var i := Find(st.users, d.mail.from).value;
      RegistryAt(st.users, i);
      IncomingRoundTripIff(st.users[i].firstName, d.mail.text);
      LinesShow(st, taken[1..], s);
    }
  }

  /** In every reachable state, running the client's handle_output on the lines a session has sent shows exactly the
      messages that session took from its mailbox and did not drop, in order. */
  lemma ClientShowsMailbox(st: State, s: nat)
    requires Reachable(st) && s < |st.sessions|
    ensures Shows(st.sessions[s].wire, NoticesOf(st.users, st.taken, s))
  {
    ReachableIsGood(st);
    LinesShow(st, st.taken, s);
  }

  lemma {:induction false} NoticeAt(users: seq<User>, taken: seq<Delivery>, s: nat, j: nat)
    requires j < |taken| && taken[j].taker == Listener(s) && !taken[j].dropped
    ensures Incoming(SenderName(users, taken[j].mail.from), taken[j].mail.text) in NoticesOf(users, taken, s)
  {
    if j > 0 {
      NoticeAt(users, taken[1..], s, j - 1);
    }
  }

  /** From a state on in which u does not block v, until u blocks v, whatever else happens: a session of u that takes a
      message from v does not drop it, and its client shows v's first name and the text. */
  lemma UnblockedIsShown(st: State, steps: seq<Step>, u: nat, v: nat, j: nat)
    requires Reachable(st) && u < |st.users| && v < |st.users| && !Blocks(st, u, v)
    requires CanRun(st, steps) && NeverChanges(st, steps, u, v, false)
    requires |st.taken| <= j < |Run(st, steps).taken|
    ensures var end := Run(st, steps);
            && v < |end.users|
            && (FromTo(end, end.taken[j], u, v) ==>
                  && !end.taken[j].dropped
                  && exists i :: 0 <= i < |end.sessions[end.taken[j].taker.session].wire|
                                 && Show(end.sessions[end.taken[j].taker.session].wire[i])
                                    == Some(Incoming(end.users[v].firstName, end.taken[j].mail.text)))
  {
    ReachableIsGood(st);
    assert AllFiltered(st, |st.taken|, u, v, false);
    BlockIsolation(st, steps, |st.taken|, u, v, false);
    RunKeepsGood(st, steps);
    var end := Run(st, steps);
    hide CanRun, Run, NeverChanges, Blocks, Show, Conserved, Fanned, Rounded;
    var d := end.taken[j];
    assert IsFiltered(end, d, u, v, false);
    if FromTo(end, d, u, v) {
      FindSelf(end.users, v);
      LinesShow(end, end.taken, d.taker.session);
      NoticeAt(end.users, end.taken, d.taker.session, j);
      var notices := NoticesOf(end.users, end.taken, d.taker.session);
      var i :| 0 <= i < |notices| && notices[i] == Incoming(end.users[v].firstName, d.mail.text);
    }
  }

  /** A typed private message, encoded by the client and decoded by the server, is posted to the mailbox of the user
      it names, with its sender and its text. */
  lemma TypedMessageIsPosted(st: State, s: nat, to: nat, text: string)
    requires Reachable(st) && Open(st, s) && to < |st.users| && IsField(text)
    ensures var from := Owner(st, s).username;
            var step := SendPrivate(s, Sent(Message(from, st.users[to].username, text + "\n")));
            && Enabled(st, step)
            && Next(st, step) == Post(st, Mail(st.users[to].id, from, text), Private)
  {
    ReachableIsGood(st);
    RegistryAt(st.users, st.sessions[s].user);
    RegistryAt(st.users, to);
    FindSelf(st.users, to);
    MessageRoundTripIff(Owner(st, s).username, st.users[to].username, text);
  }
}
