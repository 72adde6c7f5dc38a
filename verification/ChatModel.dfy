/** The chat server (Assignment-1/tcpserver.c) as a system of steps: session handlers, listeners and the
    broadcaster share the user table and one message queue, whose message types are the users' mailboxes.
    `posted`, `taken` and `rounds` record the run; the server itself never reads them. */
module ChatModel {
  import opened Options
  import opened CStrings
  import opened ChatCodec

  const MAX_USERS: nat := 20
  const BLOCK_SLOTS: nat := 100
  const BROADCAST: int := 1

  datatype User = User(username: string, password: string, firstName: string, lastName: string, id: int,
                       blocked: seq<int>)

  datatype Mail = Mail(mtype: int, from: string, text: string)

  datatype Origin = Private | ToAll | Copy(round: nat)
  datatype Posting = Posting(mail: Mail, origin: Origin)

  datatype Taker = Broadcaster | Listener(session: nat)
  datatype Delivery = Delivery(taker: Taker, mail: Mail, dropped: bool)

  /** A logged-in connection: the index of its user, and the lines its listener has sent to the client. */
  datatype Session = Session(user: nat, alive: bool, wire: seq<string>)

  /** The broadcaster: waiting for a message, or in its loop over the users. */
  datatype Fan = Idle | Fanning(mail: Mail, next: nat)

  /** A finished broadcast, and how many users were registered when it ended. */
  datatype Round = Round(mail: Mail, users: nat)

  datatype State = State(users: seq<User>, queue: seq<Mail>, fan: Fan, sessions: seq<Session>,
                         posted: seq<Posting>, taken: seq<Delivery>, rounds: seq<Round>)

  const INIT := State([], [], Idle, [], [], [], [])

  datatype Step =
    | Register(line: string)
    | Login(line: string)
    | SendPrivate(s: nat, line: string)
    | SendAll(s: nat, line: string)
    | Block(s: nat, line: string)
    | Unblock(s: nat, line: string)
    | Logout(s: nat)
    | Listen(s: nat)
    | FanStart
    | FanStep
    | FanEnd

  // ---------------------------------------------------------------------------------------------
  // Look-ups
  // ---------------------------------------------------------------------------------------------

  /** find_user: the first user of that name. */
  function Find(users: seq<User>, name: string): (r: Option<nat>)
    ensures r.Some? ==> r.value < |users| && users[r.value].username == name
    ensures r.Some? ==> forall j :: 0 <= j < r.value ==> users[j].username != name
    ensures r.None? ==> forall j :: 0 <= j < |users| ==> users[j].username != name
  {
    if users == [] then None
    else if users[0].username == name then Some(0)
    else match Find(users[1..], name) case None => None case Some(i) => Some(i + 1)
  }

  /** verify_user: the scan stops at the first user of that name, whatever the password. */
  function Verify(users: seq<User>, name: string, password: string): Option<nat> {
    match Find(users, name)
    case None => None
    case Some(i) => if users[i].password == password then Some(i) else None
  }

  /** msgrcv with a positive type: the first message of that type. */
  function FirstOf(queue: seq<Mail>, t: int): (r: Option<nat>)
    ensures r.Some? ==> r.value < |queue| && queue[r.value].mtype == t
    ensures r.Some? ==> forall j :: 0 <= j < r.value ==> queue[j].mtype != t
    ensures r.None? ==> forall j :: 0 <= j < |queue| ==> queue[j].mtype != t
  {
    if queue == [] then None
    else if queue[0].mtype == t then Some(0)
    else match FirstOf(queue[1..], t) case None => None case Some(i) => Some(i + 1)
  }

  // ---------------------------------------------------------------------------------------------
  // Effects
  // ---------------------------------------------------------------------------------------------

  function NewUser(f: seq<string>, n: nat): User
    requires |f| >= 4
  {
    User(f[0], f[1], f[2], f[3], n + 2, seq(BLOCK_SLOTS, _ => 0))
  }

  function Post(st: State, mail: Mail, origin: Origin): State {
    st.(queue := st.queue + [mail], posted := st.posted + [Posting(mail, origin)])
  }

  function Take(st: State, i: nat, taker: Taker, dropped: bool): State
    requires i < |st.queue|
  {
    st.(queue := st.queue[..i] + st.queue[i + 1..],
        taken := st.taken + [Delivery(taker, st.queue[i], dropped)])
  }

  predicate Open(st: State, s: nat) {
    s < |st.sessions| && st.sessions[s].alive && st.sessions[s].user < |st.users|
  }

  function Owner(st: State, s: nat): User
    requires Open(st, s)
  {
    st.users[st.sessions[s].user]
  }

  function SetBlocked(st: State, s: nat, id: int, v: int): State
    requires Open(st, s) && 0 <= id < |Owner(st, s).blocked|
  {
    var u := Owner(st, s);
    st.(users := st.users[st.sessions[s].user := u.(blocked := u.blocked[id := v])])
  }

  /** A block or unblock request names a registered user whose id is a slot of the table. */
  predicate CanMark(st: State, s: nat, line: string) {
    && Open(st, s) && |Fields(line)| >= 2
    && var p := Find(st.users, Fields(line)[1]);
       p.Some? && 0 <= st.users[p.value].id < |Owner(st, s).blocked|
  }

  function Mark(st: State, s: nat, line: string, v: int): State
    requires CanMark(st, s, line)
  {
    SetBlocked(st, s, st.users[Find(st.users, Fields(line)[1]).value].id, v)
  }

  predicate CanSend(st: State, s: nat, line: string) {
    Open(st, s) && Decode(line).Some? && Decode(line).value.from == Owner(st, s).username
  }

  predicate CanListen(st: State, s: nat) {
    && Open(st, s)
    && var i := FirstOf(st.queue, Owner(st, s).id);
       i.Some?
       && var p := Find(st.users, st.queue[i.value].from);
          p.Some? && 0 <= st.users[p.value].id < |Owner(st, s).blocked|
  }

  /** A listener receives its user's next message and forwards it, unless the sender is blocked. */
  function ListenStep(st: State, s: nat): State
    requires CanListen(st, s)
  {
    var i := FirstOf(st.queue, Owner(st, s).id).value;
    var sender := st.users[Find(st.users, st.queue[i].from).value];
    var ss := st.sessions[s];
    if Owner(st, s).blocked[sender.id] == 0 then
      Take(st, i, Listener(s), false).(
        sessions := st.sessions[s := ss.(wire := ss.wire + [IncomingLine(sender.firstName, st.queue[i].text)])])
    else Take(st, i, Listener(s), true)
  }

  // ---------------------------------------------------------------------------------------------
  // Steps
  // ---------------------------------------------------------------------------------------------

  predicate Enabled(st: State, step: Step) {
    match step
    case Register(line) =>
      |Fields(line)| >= 4 && (|st.users| < MAX_USERS || Find(st.users, Fields(line)[0]).Some?)
    case Login(line) => |Fields(line)| >= 2
    case SendPrivate(s, line) => CanSend(st, s, line)
    case SendAll(s, line) => CanSend(st, s, line)
    case Block(s, line) => CanMark(st, s, line)
    case Unblock(s, line) => CanMark(st, s, line)
    case Logout(s) => Open(st, s)
    case Listen(s) => CanListen(st, s)
    case FanStart => st.fan.Idle? && FirstOf(st.queue, BROADCAST).Some?
    case FanStep => st.fan.Fanning? && st.fan.next < |st.users|
    case FanEnd => st.fan.Fanning? && st.fan.next >= |st.users|
  }

  function Next(st: State, step: Step): State
    requires Enabled(st, step)
  {
    match step
    case Register(line) =>
      var f := Fields(line);
      if Find(st.users, f[0]).Some? then st
      else st.(users := st.users + [NewUser(f, |st.users|)])
    case Login(line) =>
      var f := Fields(line);
      var u := Verify(st.users, f[0], f[1]);
      if u.None? then st else st.(sessions := st.sessions + [Session(u.value, true, [])])
    case SendPrivate(s, line) =>
      var m := Decode(line).value;
      var target := Find(st.users, m.to);
      if target.None? then st
      else Post(st, Mail(st.users[target.value].id, m.from, m.text), Private)
    case SendAll(s, line) =>
      var m := Decode(line).value;
      Post(st, Mail(BROADCAST, m.from, m.text), ToAll)
    case Block(s, line) => Mark(st, s, line, 1)
    case Unblock(s, line) => Mark(st, s, line, 0)
    case Logout(s) => st.(sessions := st.sessions[s := st.sessions[s].(alive := false)])
    case Listen(s) => ListenStep(st, s)
    case FanStart =>
      var i := FirstOf(st.queue, BROADCAST).value;
      Take(st, i, Broadcaster, false).(fan := Fanning(st.queue[i], 0))
    case FanStep =>
      var u := st.users[st.fan.next];
      var m := st.fan.mail;
      var st1 := st.(fan := Fanning(m, st.fan.next + 1));
      if m.from == u.username then st1
      else Post(st1, Mail(u.id, m.from, m.text), Copy(|st.rounds|))
    case FanEnd => st.(fan := Idle, rounds := st.rounds + [Round(st.fan.mail, |st.users|)])
  }

  ghost predicate CanRun(st: State, steps: seq<Step>)
    decreases |steps|
  {
    steps == [] || (Enabled(st, steps[0]) && CanRun(Next(st, steps[0]), steps[1..]))
  }

  ghost function Run(st: State, steps: seq<Step>): State
    requires CanRun(st, steps)
    decreases |steps|
  {
    if steps == [] then st else Run(Next(st, steps[0]), steps[1..])
  }
}
