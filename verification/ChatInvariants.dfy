/** What every step of the chat server keeps. */
module ChatInvariants {
  import opened Options
  import opened CStrings
  import opened ChatCodec
  import opened ChatModel

  // ---------------------------------------------------------------------------------------------
  // The registry
  // ---------------------------------------------------------------------------------------------

  ghost predicate GoodUser(u: User, i: nat) {
    u.id == i + 2 && |u.blocked| == BLOCK_SLOTS && IsField(u.username) && IsField(u.firstName)
  }

  ghost predicate Registry(users: seq<User>) {
    && |users| <= MAX_USERS
    && (forall i :: 0 <= i < |users| ==> GoodUser(users[i], i))
    && (forall i, j :: 0 <= i < j < |users| ==> users[i].username != users[j].username)
  }

  /** Users are only added; those there keep everything but their block lists. */
  ghost predicate Grown(a: seq<User>, b: seq<User>) {
    && |a| <= |b|
    && forall i :: 0 <= i < |a| ==> SameUser(a[i], b[i])
  }

  ghost predicate SameUser(a: User, b: User) {
    b == a.(blocked := b.blocked)
  }

  lemma FindGrown(a: seq<User>, b: seq<User>, name: string)
    requires Grown(a, b) && Find(a, name).Some?
    ensures Find(b, name) == Find(a, name)
  {
    var i := Find(a, name).value;
    forall j | 0 <= j <= i ensures b[j].username == a[j].username {
      assert SameUser(a[j], b[j]);
    }
    var r := Find(b, name);
    hide Find, Grown;
    assert r.Some? && r.value == i;
  }

  /** A message some registered user has sent, to a mailbox that exists. */
  ghost predicate GoodMail(users: seq<User>, m: Mail) {
    && Find(users, m.from).Some?
    && IsField(m.text)
    && BROADCAST <= m.mtype < |users| + 2
  }

  lemma GoodMailGrown(a: seq<User>, b: seq<User>, m: Mail)
    requires Grown(a, b) && GoodMail(a, m)
    ensures GoodMail(b, m)
  {
    FindGrown(a, b, m.from);
  }

  ghost predicate AllGood(users: seq<User>, mails: seq<Mail>) {
    forall k :: 0 <= k < |mails| ==> GoodMail(users, mails[k])
  }

  /** Every queued or in-flight message has a registered sender; every session belongs to a user. */
  ghost predicate Senders(st: State) {
    && Registry(st.users)
    && AllGood(st.users, st.queue)
    && (st.fan.Fanning? ==> GoodMail(st.users, st.fan.mail))
    && forall s :: 0 <= s < |st.sessions| ==> st.sessions[s].user < |st.users|
  }

  lemma AllGoodGrown(a: seq<User>, b: seq<User>, mails: seq<Mail>)
    requires Grown(a, b) && AllGood(a, mails)
    ensures AllGood(b, mails)
  {
    forall k | 0 <= k < |mails| ensures GoodMail(b, mails[k]) { GoodMailGrown(a, b, mails[k]); }
  }

  lemma SetBlockedGrown(st: State, s: nat, id: int, v: int)
    requires Registry(st.users) && Open(st, s) && 0 <= id < |Owner(st, s).blocked|
    ensures var users := SetBlocked(st, s, id, v).users;
            Grown(st.users, users) && Registry(users)
  {
    var users := SetBlocked(st, s, id, v).users;
    assert forall i :: 0 <= i < |users| ==> users[i].username == st.users[i].username;
    assert forall i :: 0 <= i < |users| ==> GoodUser(st.users[i], i);
  }

  lemma RegisterGrown(users: seq<User>, f: seq<string>)
    requires Registry(users) && |users| < MAX_USERS && |f| >= 4 && IsField(f[0]) && IsField(f[2])
    requires Find(users, f[0]).None?
    ensures var users' := users + [NewUser(f, |users|)];
            Grown(users, users') && Registry(users')
  {
    var users' := users + [NewUser(f, |users|)];
    assert forall i :: 0 <= i < |users| ==> GoodUser(users[i], i);
    assert GoodUser(users'[|users|], |users|);
  }

  /** Every step keeps the registry and only adds users. */
  lemma StepGrows(st: State, step: Step)
    requires Registry(st.users) && Enabled(st, step)
    ensures var users := Next(st, step).users;
            Grown(st.users, users) && Registry(users)
  {
    match step
    case Register(line) =>
      FieldsAreFields(line);
      var f := Fields(line);
      assert IsField(f[0]) && IsField(f[2]);
      if Find(st.users, f[0]).None? {
        RegisterGrown(st.users, f);
      }
    case Block(s, line) =>
      SetBlockedGrown(st, s, st.users[Find(st.users, Fields(line)[1]).value].id, 1);
    case Unblock(s, line) =>
      SetBlockedGrown(st, s, st.users[Find(st.users, Fields(line)[1]).value].id, 0);
    case _ =>
  }

  /** What is posted has a registered sender and an existing mailbox. */
  lemma PostedIsGood(st: State, step: Step)
    requires Senders(st) && Enabled(st, step)
    ensures var st' := Next(st, step);
            |st'.posted| > |st.posted| ==>
              && st'.posted == st.posted + [st'.posted[|st.posted|]]
              && GoodMail(st.users, st'.posted[|st.posted|].mail)
  {
    match step
    case SendPrivate(s, line) =>
      FieldsAreFields(line);
      var m := Decode(line).value;
      assert m.text in Fields(line);
      assert Find(st.users, m.from).Some?;
    case SendAll(s, line) =>
      FieldsAreFields(line);
      var m := Decode(line).value;
      assert m.text in Fields(line);
      assert Find(st.users, m.from).Some?;
    case FanStep =>
      assert GoodUser(st.users[st.fan.next], st.fan.next);
    case _ =>
  }

  lemma StepKeepsSenders(st: State, step: Step)
    requires Senders(st) && Enabled(st, step)
    ensures Senders(Next(st, step))
  {
    hide Registry, GoodMail, Grown;
    StepGrows(st, step);
    PostedIsGood(st, step);
    var st' := Next(st, step);
    AllGoodGrown(st.users, st'.users, st.queue);
    if st.fan.Fanning? {
      GoodMailGrown(st.users, st'.users, st.fan.mail);
    }
    if |st'.posted| > |st.posted| {
      GoodMailGrown(st.users, st'.users, st'.posted[|st.posted|].mail);
    }
    StepQueue(st, step);
    hide Find, Fields, Decode, CanListen, CanSend, CanMark;
  }

  /** What is queued after a step was queued before, or has been posted. */
  lemma StepQueue(st: State, step: Step)
    requires Enabled(st, step)
    ensures var st' := Next(st, step);
            forall k :: 0 <= k < |st'.queue| ==>
              st'.queue[k] in st.queue
              || (|st'.posted| == |st.posted| + 1 && st'.queue[k] == st'.posted[|st.posted|].mail)
  {
    hide Find, Fields, Decode, FirstOf, IncomingLine;
  }

  // ---------------------------------------------------------------------------------------------
  // Mailboxes: nothing lost, doubled, reordered or misdelivered
  // ---------------------------------------------------------------------------------------------

  function OfType(mails: seq<Mail>, t: int): seq<Mail> {
    if mails == [] then []
    else (if mails[0].mtype == t then [mails[0]] else []) + OfType(mails[1..], t)
  }

  function PostedMails(posted: seq<Posting>): seq<Mail> {
    seq(|posted|, i requires 0 <= i < |posted| => posted[i].mail)
  }

  function TakenMails(taken: seq<Delivery>): seq<Mail> {
    seq(|taken|, i requires 0 <= i < |taken| => taken[i].mail)
  }

  /** For every mailbox, what was ever posted to it is, in order, what was taken from it and then what it holds. */
  ghost predicate Conserved(st: State) {
    forall t :: ConservedFor(st, t)
  }

  ghost predicate ConservedFor(st: State, t: int) {
    OfType(PostedMails(st.posted), t) == OfType(TakenMails(st.taken), t) + OfType(st.queue, t)
  }

  lemma OfTypeCons(m: Mail, rest: seq<Mail>, t: int)
    ensures OfType([m] + rest, t) == OfType([m], t) + OfType(rest, t)
  {
    var all := [m] + rest;
    assert all[0] == m && all[1..] == rest && [m][1..] == [];
  }

  lemma {:induction false} OfTypeAppend(a: seq<Mail>, b: seq<Mail>, t: int)
    ensures OfType(a + b, t) == OfType(a, t) + OfType(b, t)
  {
    if a == [] {
      assert a + b == b;
    } else {
      hide *;
      var m, rest := a[0], a[1..];
      assert a == [m] + rest && a + b == [m] + (rest + b);
      OfTypeAppend(rest, b, t);
      OfTypeCons(m, rest, t);
      OfTypeCons(m, rest + b, t);
    }
  }

  lemma {:induction false} OfTypeNone(a: seq<Mail>, t: int)
    requires forall j :: 0 <= j < |a| ==> a[j].mtype != t
    ensures OfType(a, t) == []
  {
    if a != [] {
      OfTypeNone(a[1..], t);
    }
  }

  lemma OfTypeOne(m: Mail, t: int)
    ensures OfType([m], t) == if m.mtype == t then [m] else []
  {
    assert [m][1..] == [];
  }

  lemma PostConserves(st: State, mail: Mail, origin: Origin, t: int)
    requires ConservedFor(st, t)
    ensures ConservedFor(Post(st, mail, origin), t)
  {
    var st' := Post(st, mail, origin);
    assert PostedMails(st'.posted) == PostedMails(st.posted) + [mail];
    OfTypeAppend(PostedMails(st.posted), [mail], t);
    OfTypeAppend(st.queue, [mail], t);
  }

  lemma TakeConserves(st: State, i: nat, taker: Taker, dropped: bool, t: int)
    requires i < |st.queue| && FirstOf(st.queue, st.queue[i].mtype) == Some(i)
    requires ConservedFor(st, t)
    ensures ConservedFor(Take(st, i, taker, dropped), t)
  {
    hide OfType, FirstOf;
    var m := st.queue[i];
    var st' := Take(st, i, taker, dropped);
    assert TakenMails(st'.taken) == TakenMails(st.taken) + [m];
    OfTypeAppend(TakenMails(st.taken), [m], t);
    OfTypeOne(m, t);
    QueueWithout(st.queue, i, t);
  }

  /** The first of its type leaves the queue in front of the others of its type. */
  lemma QueueWithout(queue: seq<Mail>, i: nat, t: int)
    requires i < |queue| && FirstOf(queue, queue[i].mtype) == Some(i)
    ensures OfType(queue, t)
            == (if queue[i].mtype == t then [queue[i]] else []) + OfType(queue[..i] + queue[i + 1..], t)
  {
    hide OfType;
    var a, m, b := queue[..i], queue[i], queue[i + 1..];
    assert queue == a + [m] + b;
    OfTypeAppend(a + [m], b, t);
    OfTypeAppend(a, [m], t);
    OfTypeAppend(a, b, t);
    OfTypeOne(m, t);
    if m.mtype == t {
      OfTypeNone(a, t);
    }
  }

  lemma StepConserves(st: State, step: Step)
    requires Enabled(st, step) && Conserved(st)
    ensures Conserved(Next(st, step))
  {
    forall t ensures ConservedFor(Next(st, step), t) {
      assert ConservedFor(st, t);
      match step
      case SendPrivate(s, line) =>
        var m := Decode(line).value;
        var target := Find(st.users, m.to);
        if target.Some? {
          PostConserves(st, Mail(st.users[target.value].id, m.from, m.text), Private, t);
        }
      case SendAll(s, line) =>
        var m := Decode(line).value;
        PostConserves(st, Mail(BROADCAST, m.from, m.text), ToAll, t);
      case Listen(s) =>
        var i := FirstOf(st.queue, Owner(st, s).id).value;
        TakeConserves(st, i, Listener(s), false, t);
        TakeConserves(st, i, Listener(s), true, t);
      case FanStart =>
        TakeConserves(st, FirstOf(st.queue, BROADCAST).value, Broadcaster, false, t);
      case FanStep =>
        var u, m := st.users[st.fan.next], st.fan.mail;
        var st1 := st.(fan := Fanning(m, st.fan.next + 1));
        assert ConservedFor(st1, t);
        PostConserves(st1, Mail(u.id, m.from, m.text), Copy(|st.rounds|), t);
      case _ =>
    }
  }

  /** The name a forwarded line shows for a sender. */
  function SenderName(users: seq<User>, from: string): string {
    match Find(users, from) case None => "" case Some(i) => users[i].firstName
  }

  /** The lines that the deliveries to session `s` forward: every message but the dropped ones, in order. */
  function LinesOf(users: seq<User>, taken: seq<Delivery>, s: nat): seq<string> {
    if taken == [] then []
    else LineOf(users, taken[0], s) + LinesOf(users, taken[1..], s)
  }

  /** A message is taken only by the owner of its mailbox. */
  ghost predicate TakenByOwner(st: State, d: Delivery) {
    && Find(st.users, d.mail.from).Some? && IsField(d.mail.text)
    && match d.taker
       case Broadcaster => d.mail.mtype == BROADCAST && !d.dropped
       case Listener(s) =>
         && s < |st.sessions| && st.sessions[s].user < |st.users|
         && d.mail.mtype == st.users[st.sessions[s].user].id
  }

  /** Each client has received exactly the messages of its own mailbox that its sessions took and did not drop. */
  ghost predicate Delivered(st: State) {
    && (forall k :: 0 <= k < |st.taken| ==> TakenByOwner(st, st.taken[k]))
    && forall s :: 0 <= s < |st.sessions| ==> st.sessions[s].wire == LinesOf(st.users, st.taken, s)
  }

  /** The lines a single delivery adds. */
  function LineOf(users: seq<User>, d: Delivery, s: nat): seq<string> {
    if d.taker == Listener(s) && !d.dropped then [IncomingLine(SenderName(users, d.mail.from), d.mail.text)] else []
  }

  lemma LinesCons(users: seq<User>, d: Delivery, rest: seq<Delivery>, s: nat)
    ensures LinesOf(users, [d] + rest, s) == LineOf(users, d, s) + LinesOf(users, rest, s)
  {
    hide LineOf;
    assert ([d] + rest)[0] == d && ([d] + rest)[1..] == rest;
  }

  lemma {:induction false} LinesAppend(users: seq<User>, a: seq<Delivery>, b: seq<Delivery>, s: nat)
    ensures LinesOf(users, a + b, s) == LinesOf(users, a, s) + LinesOf(users, b, s)
  {
    if a == [] {
      assert a + b == b;
    } else {
      hide *;
      var d, rest := a[0], a[1..];
      assert a == [d] + rest && a + b == [d] + (rest + b);
      LinesAppend(users, rest, b, s);
      LinesCons(users, d, rest, s);
      LinesCons(users, d, rest + b, s);
    }
  }

  lemma {:induction false} LinesGrown(a: seq<User>, b: seq<User>, taken: seq<Delivery>, s: nat)
    requires Grown(a, b) && forall k :: 0 <= k < |taken| ==> Find(a, taken[k].mail.from).Some?
    ensures LinesOf(a, taken, s) == LinesOf(b, taken, s)
  {
    if taken != [] {
      var from := taken[0].mail.from;
      FindGrown(a, b, from);
      assert SameUser(a[Find(a, from).value], b[Find(a, from).value]);
      LinesGrown(a, b, taken[1..], s);
    }
  }

  lemma {:induction false} LinesOfStranger(users: seq<User>, taken: seq<Delivery>, s: nat)
    requires forall k :: 0 <= k < |taken| ==> taken[k].taker != Listener(s)
    ensures LinesOf(users, taken, s) == []
  {
    if taken != [] {
      LinesOfStranger(users, taken[1..], s);
    }
  }

  /** Sessions are only added; they keep their users. */
  ghost predicate SessionsKept(a: seq<Session>, b: seq<Session>) {
    |a| <= |b| && forall s :: 0 <= s < |a| ==> b[s].user == a[s].user
  }

  lemma TakenGrown(st: State, st': State, d: Delivery)
    requires TakenByOwner(st, d) && Grown(st.users, st'.users) && SessionsKept(st.sessions, st'.sessions)
    ensures TakenByOwner(st', d)
  {
    FindGrown(st.users, st'.users, d.mail.from);
    if d.taker.Listener? {
      var u := st.sessions[d.taker.session].user;
      assert SameUser(st.users[u], st'.users[u]);
    }
  }

  /** A step that takes no message and adds no line. */
  lemma QuietStepDelivers(st: State, st': State)
    requires Delivered(st) && Grown(st.users, st'.users) && SessionsKept(st.sessions, st'.sessions)
    requires st'.taken == st.taken
    requires forall s :: 0 <= s < |st'.sessions| ==>
               st'.sessions[s].wire == if s < |st.sessions| then st.sessions[s].wire else []
    ensures Delivered(st')
  {
    forall k | 0 <= k < |st'.taken| ensures TakenByOwner(st', st'.taken[k]) {
      TakenGrown(st, st', st.taken[k]);
    }
    forall s | 0 <= s < |st'.sessions| ensures st'.sessions[s].wire == LinesOf(st'.users, st'.taken, s) {
      assert forall k :: 0 <= k < |st.taken| ==> TakenByOwner(st, st.taken[k]);
      if s < |st.sessions| {
        LinesGrown(st.users, st'.users, st.taken, s);
      } else {
        LinesOfStranger(st'.users, st.taken, s);
      }
    }
  }

  /** A step that takes one message. */
  lemma TakingDelivers(st: State, st': State, d: Delivery)
    requires Delivered(st) && st'.users == st.users && SessionsKept(st.sessions, st'.sessions)
    requires |st'.sessions| == |st.sessions| && st'.taken == st.taken + [d] && TakenByOwner(st', d)
    requires forall s :: 0 <= s < |st.sessions| ==>
               st'.sessions[s].wire == st.sessions[s].wire + LinesOf(st.users, [d], s)
    ensures Delivered(st')
  {
    forall k | 0 <= k < |st'.taken| ensures TakenByOwner(st', st'.taken[k]) {
      if k < |st.taken| {
        assert forall i :: 0 <= i < |st.users| ==> SameUser(st.users[i], st'.users[i]);
        TakenGrown(st, st', st.taken[k]);
      }
    }
    forall s | 0 <= s < |st'.sessions| ensures st'.sessions[s].wire == LinesOf(st'.users, st'.taken, s) {
      LinesAppend(st.users, st.taken, [d], s);
    }
  }

  lemma ListenDelivers(st: State, s: nat)
    requires Delivered(st) && AllGood(st.users, st.queue) && CanListen(st, s)
    ensures Delivered(ListenStep(st, s))
  {
    var st' := ListenStep(st, s);
    assert GoodMail(st.users, st.queue[FirstOf(st.queue, Owner(st, s).id).value]);
    var d := st'.taken[|st.taken|];
    assert [d][1..] == [];
    forall q | 0 <= q < |st.sessions|
      ensures st'.sessions[q].wire == st.sessions[q].wire + LinesOf(st.users, [d], q)
    {
      assert LinesOf(st.users, [], q) == [];
    }
    TakingDelivers(st, st', d);
  }

  lemma FanStartDelivers(st: State)
    requires Delivered(st) && AllGood(st.users, st.queue) && Enabled(st, FanStart)
    ensures Delivered(Next(st, FanStart))
  {
    var st' := Next(st, FanStart);
    var i := FirstOf(st.queue, BROADCAST).value;
    assert GoodMail(st.users, st.queue[i]);
    var d := st'.taken[|st.taken|];
    assert [d][1..] == [];
    forall q | 0 <= q < |st.sessions|
      ensures st'.sessions[q].wire == st.sessions[q].wire + LinesOf(st.users, [d], q)
    {
      assert LinesOf(st.users, [], q) == [];
    }
    TakingDelivers(st, st', d);
  }

  lemma StepDelivers(st: State, step: Step)
    requires Senders(st) && Delivered(st) && Enabled(st, step)
    ensures Delivered(Next(st, step))
  {
    hide Delivered, Registry, Grown, AllGood;
    StepGrows(st, step);
    if step.Listen? {
      ListenDelivers(st, step.s);
    } else if step.FanStart? {
      FanStartDelivers(st);
    } else {
      QuietStepDelivers(st, Next(st, step));
    }
  }
}
