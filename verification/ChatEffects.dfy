/** What single requests and deliveries do in the states the chat server can be in (Assignment-1/tcpserver.c), and when
    they can happen. */
module ChatEffects {
  import opened Options
  import opened CStrings
  import opened ChatCodec
  import opened ChatModel
  import opened ChatInvariants
  import opened ChatRuns

  // ---------------------------------------------------------------------------------------------
  // Registration and login
  // ---------------------------------------------------------------------------------------------

  /** A name and a password verify as the one user who has both. */
  lemma VerifyIs(users: seq<User>, name: string, password: string)
    requires Registry(users)
    ensures forall i: nat :: Verify(users, name, password) == Some(i) <==>
                               i < |users| && users[i].username == name && users[i].password == password
  {
    hide Registry;
    forall i: nat | i < |users| && users[i].username == name
      ensures Find(users, name) == Some(i)
    {
      FindSelf(users, i);
    }
  }

  /** A login with a registered name and its password adds one session: alive, of that very user, and nothing has been
      sent on it. Any other login changes nothing. */
  lemma LoginOpens(st: State, line: string)
    requires Reachable(st) && Enabled(st, Login(line))
    ensures var f, st' := Fields(line), Next(st, Login(line));
            && st' == st.(sessions := st'.sessions)
            && (forall i: nat :: i < |st.users| && st.users[i].username == f[0] && st.users[i].password == f[1] ==>
                  st'.sessions == st.sessions + [Session(i, true, [])])
            && ((forall i :: 0 <= i < |st.users| ==> st.users[i].username != f[0] || st.users[i].password != f[1]) ==>
                  st' == st)
  {
    ReachableIsGood(st);
    GoodParts(st);
    SendersRegistry(st);
    VerifyIs(st.users, Fields(line)[0], Fields(line)[1]);
    hide Verify, Fields, Reachable, Registry;
  }

  /** A registration under a free name adds one user: the four fields of the line, the next id, nobody blocked. Under a
      name that is taken it changes nothing. */
  lemma RegisterAdds(st: State, line: string)
    requires Enabled(st, Register(line))
    ensures var f, st' := Fields(line), Next(st, Register(line));
            if exists i :: 0 <= i < |st.users| && st.users[i].username == f[0] then st' == st
            else
              && |st'.users| == |st.users| + 1 && st' == st.(users := st'.users) && st'.users[..|st.users|] == st.users
              && var u := st'.users[|st.users|];
                 && u.username == f[0] && u.password == f[1] && u.firstName == f[2] && u.lastName == f[3]
                 && u.id == |st.users| + 2
                 && |u.blocked| == BLOCK_SLOTS && forall k :: 0 <= k < |u.blocked| ==> u.blocked[k] == 0
  {
    hide Fields;
  }

  // ---------------------------------------------------------------------------------------------
  // Deliveries
  // ---------------------------------------------------------------------------------------------

  /** Message number i is the next one in the mailbox of the session's user, and v sent it. */
  ghost predicate Waits(st: State, s: nat, i: nat, v: nat) {
    && Open(st, s) && i < |st.queue| && v < |st.users|
    && st.queue[i].mtype == Owner(st, s).id && (forall j :: 0 <= j < i ==> st.queue[j].mtype != Owner(st, s).id)
    && st.users[v].username == st.queue[i].from
  }

  lemma WaitsIsFirst(st: State, s: nat, i: nat, v: nat)
    requires Registry(st.users) && Waits(st, s, i, v)
    ensures FirstOf(st.queue, Owner(st, s).id) == Some(i) && Find(st.users, st.queue[i].from) == Some(v)
    ensures CanListen(st, s)
  {
    FindSelf(st.users, v);
    RegistryAt(st.users, v);
    RegistryAt(st.users, st.sessions[s].user);
    var r := FirstOf(st.queue, Owner(st, s).id);
    hide Find, Registry;
  }

  /** What a listener does with the next message of its mailbox: it takes it out of the queue; if its user blocks the
      sender, nothing else happens, and otherwise one line goes to the client, which shows the sender's first name and
      the text. */
  lemma ListenForwards(st: State, s: nat, i: nat, v: nat)
    requires Reachable(st) && Waits(st, s, i, v)
    ensures Enabled(st, Listen(s))
    ensures var u, m, ss, st' := st.sessions[s].user, st.queue[i], st.sessions[s], Next(st, Listen(s));
            && st'.queue == st.queue[..i] + st.queue[i + 1..]
            && st'.taken == st.taken + [Delivery(Listener(s), m, Blocks(st, u, v))]
            && st' == st.(queue := st'.queue, taken := st'.taken, sessions := st'.sessions)
            && (Blocks(st, u, v) ==> st'.sessions == st.sessions)
            && (!Blocks(st, u, v) ==>
                  exists line :: st'.sessions == st.sessions[s := ss.(wire := ss.wire + [line])]
                                 && Show(line) == Some(Incoming(st.users[v].firstName, m.text)))
  {
    ReachableIsGood(st);
    GoodParts(st);
    SendersRegistry(st);
    WaitsIsFirst(st, s, i, v);
    var u, m, ss := st.sessions[s].user, st.queue[i], st.sessions[s];
    assert GoodMail(st.users, m);
    RegistryAt(st.users, v);
    RegistryAt(st.users, u);
    IncomingRoundTripIff(st.users[v].firstName, m.text);
    ListenIs(st, s, i, v);
    hide *;
    var line := IncomingLine(st.users[v].firstName, m.text);
    assert Show(line) == Some(Incoming(st.users[v].firstName, m.text));
  }

  lemma ListenIs(st: State, s: nat, i: nat, v: nat)
    requires CanListen(st, s) && FirstOf(st.queue, Owner(st, s).id) == Some(i) && Find(st.users, st.queue[i].from) == Some(v)
    ensures var u, m, ss, st' := st.sessions[s].user, st.queue[i], st.sessions[s], Next(st, Listen(s));
            && Enabled(st, Listen(s))
            && st' == st.(queue := st.queue[..i] + st.queue[i + 1..],
                          taken := st.taken + [Delivery(Listener(s), m, Blocks(st, u, v))], sessions := st'.sessions)
            && (Blocks(st, u, v) ==> st'.sessions == st.sessions)
            && (!Blocks(st, u, v) ==>
                  st'.sessions
                  == st.sessions[s := ss.(wire := ss.wire + [IncomingLine(st.users[v].firstName, m.text)])])
  {
    hide Find, FirstOf, IncomingLine;
  }

  // ---------------------------------------------------------------------------------------------
  // Requests
  // ---------------------------------------------------------------------------------------------

  /** A message typed for all is posted to the broadcaster, with its sender and its text. */
  lemma TypedBroadcastIsPosted(st: State, s: nat, text: string)
    requires Reachable(st) && Open(st, s) && IsField(text)
    ensures var from := Owner(st, s).username;
            var step := SendAll(s, Sent(Message(from, "broadcast", text + "\n")));
            && Enabled(st, step)
            && Next(st, step) == st.(queue := st.queue + [Mail(1, from, text)],
                                     posted := st.posted + [Posting(Mail(1, from, text), ToAll)])
  {
    ReachableIsGood(st);
    RegistryAt(st.users, st.sessions[s].user);
    hide *;
    SentToAll(st, s, text);
  }

  lemma SentToAll(st: State, s: nat, text: string)
    requires Open(st, s) && IsField(Owner(st, s).username) && IsField(text)
    ensures var from := Owner(st, s).username;
            var step := SendAll(s, Sent(Message(from, "broadcast", text + "\n")));
            && Enabled(st, step)
            && Next(st, step) == st.(queue := st.queue + [Mail(1, from, text)],
                                     posted := st.posted + [Posting(Mail(1, from, text), ToAll)])
  {
    assert IsField("broadcast");
    MessageRoundTripIff(Owner(st, s).username, "broadcast", text);
    hide Sent, IsField;
  }

  /** A private message for a name that nobody has is posted nowhere. */
  lemma UnknownTargetPostsNothing(st: State, s: nat, line: string)
    requires CanSend(st, s, line)
    requires forall i :: 0 <= i < |st.users| ==> st.users[i].username != Decode(line).value.to
    ensures Next(st, SendPrivate(s, line)) == st
  {
  }

  // ---------------------------------------------------------------------------------------------
  // What can happen
  // ---------------------------------------------------------------------------------------------

  ghost predicate IsName(users: seq<User>, name: string) {
    exists i :: 0 <= i < |users| && users[i].username == name
  }

  ghost predicate HasMail(queue: seq<Mail>, t: int) {
    exists i :: 0 <= i < |queue| && queue[i].mtype == t
  }

  lemma FindIsName(users: seq<User>, name: string)
    ensures Find(users, name).Some? <==> IsName(users, name)
  {
    var r := Find(users, name);
    if r.Some? { assert users[r.value].username == name; }
  }

  lemma FirstIsMail(queue: seq<Mail>, t: int)
    ensures FirstOf(queue, t).Some? <==> HasMail(queue, t)
  {
    var r := FirstOf(queue, t);
    if r.Some? { assert queue[r.value].mtype == t; }
  }

  /** In every reachable state: a session that is alive can make every request that its line has the fields and names
      for, and its listener can receive whenever a message waits. */
  lemma SessionEnabled(st: State, s: nat, line: string)
    requires Reachable(st) && s < |st.sessions| && st.sessions[s].alive
    ensures Open(st, s) && Enabled(st, Logout(s))
    ensures Enabled(st, Listen(s)) <==> HasMail(st.queue, Owner(st, s).id)
    ensures Enabled(st, SendPrivate(s, line)) <==> |Fields(line)| >= 3 && Fields(line)[0] == Owner(st, s).username
    ensures Enabled(st, SendAll(s, line)) <==> |Fields(line)| >= 3 && Fields(line)[0] == Owner(st, s).username
    ensures Enabled(st, Block(s, line)) <==> |Fields(line)| >= 2 && IsName(st.users, Fields(line)[1])
    ensures Enabled(st, Unblock(s, line)) <==> |Fields(line)| >= 2 && IsName(st.users, Fields(line)[1])
  {
    ReachableIsGood(st);
    GoodParts(st);
    assert Open(st, s);
    RequestsAre(st, s, line);
    hide *;
    CanListenIff(st, s);
    CanMarkIff(st, s, line);
    CanSendIff(st, s, line);
    if |Fields(line)| >= 2 {
      FindIsName(st.users, Fields(line)[1]);
    }
  }

  lemma RequestsAre(st: State, s: nat, line: string)
    ensures Enabled(st, Logout(s)) <==> Open(st, s)
    ensures Enabled(st, Listen(s)) <==> CanListen(st, s)
    ensures Enabled(st, SendPrivate(s, line)) <==> CanSend(st, s, line)
    ensures Enabled(st, SendAll(s, line)) <==> CanSend(st, s, line)
    ensures Enabled(st, Block(s, line)) <==> CanMark(st, s, line)
    ensures Enabled(st, Unblock(s, line)) <==> CanMark(st, s, line)
  {
    hide CanListen, CanSend, CanMark, Open;
  }

  lemma CanSendIff(st: State, s: nat, line: string)
    requires Open(st, s)
    ensures CanSend(st, s, line) <==> |Fields(line)| >= 3 && Fields(line)[0] == Owner(st, s).username
  {
    hide Fields;
  }

  /** Users can be registered until there are 20, anybody can try to log in, an idle broadcaster receives whenever a
      message waits, and a busy one can go on. */
  lemma ServerEnabled(st: State, line: string)
    ensures Enabled(st, Register(line)) <==>
              |Fields(line)| >= 4 && (|st.users| < 20 || IsName(st.users, Fields(line)[0]))
    ensures Enabled(st, Login(line)) <==> |Fields(line)| >= 2
    ensures Enabled(st, FanStart) <==> st.fan == Idle && HasMail(st.queue, 1)
    ensures st.fan.Fanning? ==> (Enabled(st, FanStep) <==> !Enabled(st, FanEnd))
  {
    FirstIsMail(st.queue, 1);
    if |Fields(line)| >= 1 {
      FindIsName(st.users, Fields(line)[0]);
    }
    hide Find, FirstOf, Fields, IsName, HasMail;
  }

  lemma CanListenIff(st: State, s: nat)
    requires Senders(st) && Open(st, s)
    ensures CanListen(st, s) <==> HasMail(st.queue, Owner(st, s).id)
  {
    FirstIsMail(st.queue, Owner(st, s).id);
    RegistryAt(st.users, st.sessions[s].user);
    var i := FirstOf(st.queue, Owner(st, s).id);
    if i.Some? {
      assert GoodMail(st.users, st.queue[i.value]);
      RegistryAt(st.users, Find(st.users, st.queue[i.value].from).value);
    }
    hide Registry, Find, FirstOf, HasMail;
  }

  lemma CanMarkIff(st: State, s: nat, line: string)
    requires Senders(st) && Open(st, s)
    ensures CanMark(st, s, line) <==> |Fields(line)| >= 2 && Find(st.users, Fields(line)[1]).Some?
  {
    RegistryAt(st.users, st.sessions[s].user);
    if |Fields(line)| >= 2 && Find(st.users, Fields(line)[1]).Some? {
      RegistryAt(st.users, Find(st.users, Fields(line)[1]).value);
    }
    hide Registry, Find, Fields;
  }

  // ---------------------------------------------------------------------------------------------
  // Who blocks whom
  // ---------------------------------------------------------------------------------------------

  /** The slots of users who are not registered yet are zero. */
  ghost predicate SlotsFree(users: seq<User>) {
    forall i, k :: 0 <= i < |users| && |users| + 2 <= k < |users[i].blocked| ==> users[i].blocked[k] == 0
  }

  lemma MarkKeepsSlots(st: State, s: nat, line: string, bit: int)
    requires Registry(st.users) && SlotsFree(st.users) && CanMark(st, s, line)
    ensures SlotsFree(Mark(st, s, line, bit).users)
  {
    RegistryAt(st.users, Find(st.users, Fields(line)[1]).value);
    hide Find, Fields, Registry;
  }

  /** A new user blocks nobody, and nobody blocks a new user. */
  lemma RegisterBlocks(st: State, line: string, u: nat, v: nat)
    requires Registry(st.users) && SlotsFree(st.users) && Enabled(st, Register(line))
    ensures var st' := Next(st, Register(line));
            SlotsFree(st'.users) && (Blocks(st', u, v) <==> Blocks(st, u, v))
  {
    hide Find, Fields;
    var st' := Next(st, Register(line));
    if st' != st && u < |st'.users| && v < |st'.users| {
      if u < |st.users| { RegistryAt(st.users, u); }
      if v < |st.users| { RegistryAt(st.users, v); }
      hide Registry;
      assert st'.users[v].id == v + 2;
    }
  }

  lemma StepBlocks(st: State, step: Step, u: nat, v: nat)
    requires Registry(st.users) && SlotsFree(st.users) && Enabled(st, step)
    ensures var st' := Next(st, step);
            && SlotsFree(st'.users)
            && (Blocks(st', u, v) <==> BlocksBy(st, step, u, v) || (Blocks(st, u, v) && !Unblocks(st, step, u, v)))
  {
    if step.Register? {
      RegisterBlocks(st, step.line, u, v);
    } else {
      if u < |st.users| && v < |st.users| {
        BlockingStep(st, step, u, v);
      }
      if step.Block? {
        MarkKeepsSlots(st, step.s, step.line, 1);
      } else if step.Unblock? {
        MarkKeepsSlots(st, step.s, step.line, 0);
      }
      hide Find, Fields, Registry, SlotsFree;
    }
  }

  /** The first steps of a run lead to a state from which the others can be taken. */
  lemma {:induction false} RunSplit(st: State, steps: seq<Step>, i: nat)
    requires CanRun(st, steps) && i <= |steps|
    ensures CanRun(st, steps[..i]) && CanRun(Run(st, steps[..i]), steps[i..])
    ensures Run(Run(st, steps[..i]), steps[i..]) == Run(st, steps)
    decreases i
  {
    hide Enabled, Next;
    if i == 0 {
      assert steps[0..] == steps;
    } else {
      RunSplit(Next(st, steps[0]), steps[1..], i - 1);
      assert steps[..i][0] == steps[0] && steps[..i][1..] == steps[1..][..i - 1] && steps[i..] == steps[1..][i - 1..];
    }
  }

  /** The state in which step number i of a run is taken. */
  ghost function Before(steps: seq<Step>, i: nat): State
    requires CanRun(INIT, steps) && i <= |steps|
  {
    RunSplit(INIT, steps, i);
    Run(INIT, steps[..i])
  }

  /** Step number i is a request of u to block v. */
  ghost predicate AsksAt(steps: seq<Step>, i: nat, u: nat, v: nat)
    requires CanRun(INIT, steps)
  {
    i < |steps| && BlocksBy(Before(steps, i), steps[i], u, v)
  }

  /** Step number i is a request of u to unblock v. */
  ghost predicate TakesBackAt(steps: seq<Step>, i: nat, u: nat, v: nat)
    requires CanRun(INIT, steps)
  {
    i < |steps| && Unblocks(Before(steps, i), steps[i], u, v)
  }

  /** The request of step number i has not been taken back since. */
  ghost predicate LastRequest(steps: seq<Step>, i: nat, u: nat, v: nat)
    requires CanRun(INIT, steps)
  {
    AsksAt(steps, i, u, v) && forall j: nat :: i < j ==> !TakesBackAt(steps, j, u, v)
  }

  ghost predicate StillAsked(steps: seq<Step>, u: nat, v: nat)
    requires CanRun(INIT, steps)
  {
    exists i: nat :: LastRequest(steps, i, u, v)
  }

  lemma RunLast(steps: seq<Step>)
    requires CanRun(INIT, steps) && steps != []
    ensures var n := |steps| - 1;
            && CanRun(INIT, steps[..n]) && Enabled(Run(INIT, steps[..n]), steps[n])
            && Run(INIT, steps) == Next(Run(INIT, steps[..n]), steps[n])
            && Before(steps, n) == Run(INIT, steps[..n])
  {
    var n := |steps| - 1;
    RunSplit(INIT, steps, n);
    assert steps[n..] == [steps[n]] && [steps[n]][1..] == [];
    hide Enabled, Next;
  }

  /** The requests before the last step are those of the run without it. */
  lemma FrontAsks(steps: seq<Step>, front: seq<Step>, i: nat, u: nat, v: nat)
    requires CanRun(INIT, steps) && CanRun(INIT, front) && steps != [] && front == steps[..|steps| - 1] && i < |front|
    ensures AsksAt(front, i, u, v) == AsksAt(steps, i, u, v)
    ensures TakesBackAt(front, i, u, v) == TakesBackAt(steps, i, u, v)
  {
    hide BlocksBy, Unblocks, CanRun, Run;
    assert front[..i] == steps[..i] && front[i] == steps[i];
  }

  lemma AsksInside(steps: seq<Step>, n: nat, u: nat, v: nat)
    requires CanRun(INIT, steps) && n == |steps|
    ensures forall i: nat :: AsksAt(steps, i, u, v) ==> i < n
    ensures forall i: nat :: TakesBackAt(steps, i, u, v) ==> i < n
  {
  }

  lemma LastRequestOf(steps: seq<Step>, front: seq<Step>, u: nat, v: nat)
    requires CanRun(INIT, steps) && CanRun(INIT, front) && steps != [] && front == steps[..|steps| - 1]
    ensures StillAsked(steps, u, v)
            <==> AsksAt(steps, |front|, u, v) || (StillAsked(front, u, v) && !TakesBackAt(steps, |front|, u, v))
  {
    var n := |front|;
    forall i: nat | i < n
      ensures AsksAt(front, i, u, v) == AsksAt(steps, i, u, v)
      ensures TakesBackAt(front, i, u, v) == TakesBackAt(steps, i, u, v)
    {
      FrontAsks(steps, front, i, u, v);
    }
    AsksInside(front, n, u, v);
    AsksInside(steps, n + 1, u, v);
    hide *;
    LastRequestMoves(steps, front, n, u, v);
  }

  /** One more step, in terms of who asks when. */
  lemma LastRequestMoves(steps: seq<Step>, front: seq<Step>, n: nat, u: nat, v: nat)
    requires CanRun(INIT, steps) && CanRun(INIT, front)
    requires forall i: nat :: i < n ==> AsksAt(front, i, u, v) == AsksAt(steps, i, u, v)
    requires forall i: nat :: i < n ==> TakesBackAt(front, i, u, v) == TakesBackAt(steps, i, u, v)
    requires forall i: nat :: AsksAt(front, i, u, v) ==> i < n
    requires forall i: nat :: TakesBackAt(front, i, u, v) ==> i < n
    requires forall i: nat :: AsksAt(steps, i, u, v) ==> i <= n
    requires forall i: nat :: TakesBackAt(steps, i, u, v) ==> i <= n
    ensures StillAsked(steps, u, v)
            <==> AsksAt(steps, n, u, v) || (StillAsked(front, u, v) && !TakesBackAt(steps, n, u, v))
  {
    hide AsksAt, TakesBackAt, CanRun;
    if i: nat :| LastRequest(steps, i, u, v) && i < n {
      assert LastRequest(front, i, u, v);
    }
    if AsksAt(steps, n, u, v) {
      assert LastRequest(steps, n, u, v);
    }
    if i: nat :| LastRequest(front, i, u, v) && !TakesBackAt(steps, n, u, v) {
      assert LastRequest(steps, i, u, v);
    }
  }

  /** The last step of a run, and the run in front of it. */
  lemma LastStep(steps: seq<Step>, u: nat, v: nat) returns (front: seq<Step>, step: Step)
    requires CanRun(INIT, steps) && steps != []
    ensures CanRun(INIT, front) && |front| < |steps|
    ensures Enabled(Run(INIT, front), step) && Run(INIT, steps) == Next(Run(INIT, front), step)
    ensures StillAsked(steps, u, v)
            <==> BlocksBy(Run(INIT, front), step, u, v)
                 || (StillAsked(front, u, v) && !Unblocks(Run(INIT, front), step, u, v))
  {
    RunLast(steps);
    front, step := steps[..|steps| - 1], steps[|steps| - 1];
    assert AsksAt(steps, |front|, u, v) <==> BlocksBy(Run(INIT, front), step, u, v);
    assert TakesBackAt(steps, |front|, u, v) <==> Unblocks(Run(INIT, front), step, u, v);
    hide *;
    LastRequestOf(steps, front, u, v);
  }

  lemma NothingAsked(u: nat, v: nat)
    ensures CanRun(INIT, []) && Run(INIT, []) == INIT && !StillAsked([], u, v) && !Blocks(INIT, u, v) && SlotsFree(INIT.users)
  {
    assert forall i: nat :: !AsksAt([], i, u, v);
  }

  /** After any run, u blocks v exactly if u has asked for it and has not taken it back since. */
  lemma {:induction false} BlocksIffAsked(steps: seq<Step>, u: nat, v: nat)
    requires CanRun(INIT, steps)
    ensures Blocks(Run(INIT, steps), u, v) <==> StillAsked(steps, u, v)
    ensures SlotsFree(Run(INIT, steps).users)
    decreases |steps|
  {
    hide Blocks, Run, CanRun, StillAsked, SlotsFree, Enabled, Next, BlocksBy, Unblocks, Registry;
    NothingAsked(u, v);
    if steps != [] {
      var front, step := LastStep(steps, u, v);
      BlocksIffAsked(front, u, v);
      RegistryOfRun(front);
      StepBlocks(Run(INIT, front), step, u, v);
    }
  }

  lemma RegistryOfRun(steps: seq<Step>)
    requires CanRun(INIT, steps)
    ensures Registry(Run(INIT, steps).users)
  {
    InitIsGood();
    RunKeepsGood(INIT, steps);
    GoodParts(Run(INIT, steps));
    SendersRegistry(Run(INIT, steps));
  }
}
