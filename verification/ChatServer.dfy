/** The chat server's functions (Assignment-1/tcpserver.c) over the shared user array and the message queue. Each
    request handler, listener turn and broadcaster turn is one step of the chat model. */
module ChatServer {
  import opened Options
  import opened CStrings
  import opened ChatCodec
  import opened ChatModel

  class Server {
    var users: array<User>
    var registered: nat
    var queue: seq<Mail>
    var fan: Fan
    var sessions: seq<Session>
    ghost var posted: seq<Posting>
    ghost var taken: seq<Delivery>
    ghost var rounds: seq<Round>

    ghost predicate Valid()
      reads this
    {
      users.Length == MAX_USERS && registered <= MAX_USERS
    }

    ghost function Abs(): State
      reads this, users
      requires Valid()
    {
      State(users[..registered], queue, fan, sessions, posted, taken, rounds)
    }

    constructor ()
      ensures Valid() && Abs() == INIT && fresh(users)
    {
      users := new User[MAX_USERS](_ => User("", "", "", "", 0, []));
      registered := 0;
      queue, fan, sessions := [], Idle, [];
      posted, taken, rounds := [], [], [];
    }

    method FindUser(name: string) returns (r: Option<nat>)
      requires Valid()
      ensures r == Find(users[..registered], name)
    {
      var i := 0;
      while i < registered
        invariant 0 <= i <= registered
        invariant forall j :: 0 <= j < i ==> users[j].username != name
      {
        if users[i].username == name {
          FindAt(users[..registered], name, i);
          return Some(i);
        }
        i := i + 1;
      }
      assert forall j :: 0 <= j < registered ==> users[..registered][j] == users[j];
      return None;
    }

    /** The scan returns NULL at the first user of that name if the password is wrong. */
    method VerifyUser(line: string) returns (r: Option<nat>)
      requires Valid() && NUL !in line && |Fields(line)| >= 2
      ensures r == Verify(users[..registered], Fields(line)[0], Fields(line)[1])
      ensures r.Some? ==> r.value < registered && users[r.value].username == Fields(line)[0]
                          && users[r.value].password == Fields(line)[1]
    {
      hide Fields, Find;
      var name, password := TwoFields(line);
      var i := 0;
      while i < registered
        invariant 0 <= i <= registered
        invariant forall j :: 0 <= j < i ==> users[j].username != name
      {
        if users[i].username == name {
          FindAt(users[..registered], name, i);
          if users[i].password == password {
            return Some(i);
          } else {
            return None;
          }
        }
        i := i + 1;
      }
      assert forall j :: 0 <= j < registered ==> users[..registered][j] == users[j];
      return None;
    }

    static method TwoFields(line: string) returns (a: string, b: string)
      requires NUL !in line && |Fields(line)| >= 2
      ensures a == Fields(line)[0] && b == Fields(line)[1]
    {
      hide Token, AfterToken, Fields;
      var t := new StrTok(line);
      TokenFields(line);
      TokenFields(AfterToken(line));
      var ta := t.Next();
      var tb := t.Next();
      a, b := ta.value, tb.value;
    }

    /** create_new_user: 1 when the user was added, 2 when the name is taken. */
    method CreateNewUser(line: string) returns (code: int)
      requires Valid() && NUL !in line && Enabled(Abs(), Register(line))
      modifies this`registered, users
      ensures Valid() && Abs() == Next(old(Abs()), Register(line))
      ensures code == if Find(old(Abs()).users, Fields(line)[0]).Some? then 2 else 1
    {
      hide Fields, Find;
      var name, password, first, last := FourFields(line);
      var ptr := FindUser(name);
      if ptr.Some? {
        return 2;
      }
      var newUser := User(name, password, first, last, 0, seq(BLOCK_SLOTS, _ => 0));
      ghost var before := users[..registered];
      var at := registered;
      registered := registered + 1;
      newUser := newUser.(id := registered + 1);
      users[at] := newUser;
      assert users[..registered] == before + [newUser];
      return 1;
    }

    static method FourFields(line: string) returns (a: string, b: string, c: string, d: string)
      requires NUL !in line && |Fields(line)| >= 4
      ensures [a, b, c, d] == Fields(line)[..4]
    {
      hide Token, AfterToken, Fields;
      var t := new StrTok(line);
      ghost var s1 := AfterToken(line);
      ghost var s2 := AfterToken(s1);
      TokenFields(line);
      TokenFields(s1);
      TokenFields(s2);
      TokenFields(AfterToken(s2));
      var ta := t.Next();
      var tb := t.Next();
      var tc := t.Next();
      var td := t.Next();
      a, b, c, d := ta.value, tb.value, tc.value, td.value;
    }

    method MsgSnd(mail: Mail, ghost origin: Origin)
      requires Valid()
      modifies this`queue, this`posted
      ensures Valid() && Abs() == Post(old(Abs()), mail, origin)
    {
      queue := queue + [mail];
      posted := posted + [Posting(mail, origin)];
    }

    /** msgrcv: takes the first message of the type out of the queue. */
    method MsgRcv(t: int) returns (mail: Mail, ghost at: nat)
      requires Valid() && FirstOf(queue, t).Some?
      modifies this`queue
      ensures at == FirstOf(old(queue), t).value && mail == old(queue)[at]
      ensures queue == old(queue)[..at] + old(queue)[at + 1..]
    {
      var i := 0;
      while queue[i].mtype != t
        invariant 0 <= i <= FirstOf(queue, t).value
        decreases |queue| - i
      {
        i := i + 1;
      }
      at := i;
      mail := queue[i];
      queue := queue[..i] + queue[i + 1..];
    }

    /** Login: a session is opened for the user who has name and password of the line. The client reads the first reply
        as 1 exactly then, and the second one greets the user. */
    method HandleLogin(line: string) returns (replies: seq<string>)
      requires Valid() && NUL !in line && Enabled(Abs(), Login(line))
      modifies this`sessions
      ensures Valid() && Abs() == Next(old(Abs()), Login(line))
      ensures replies != [] && |Fields(replies[0])| == 2
      ensures Atoi(Fields(replies[0])[1]) == 1 <==> Verify(users[..registered], Fields(line)[0], Fields(line)[1]).Some?
      ensures Atoi(Fields(replies[0])[1]) != 1 ==> |replies| == 1 && sessions == old(sessions)
      ensures Atoi(Fields(replies[0])[1]) == 1 ==>
                exists i :: 0 <= i < registered
                  && users[i].username == Fields(line)[0] && users[i].password == Fields(line)[1]
                  && sessions == old(sessions) + [Session(i, true, [])]
                  && replies == [replies[0], "Welcome " + users[i].firstName + "!"]
    {
      LoginIs(Abs(), line);
      hide *;
      var u := VerifyUser(line);
      replies := LoginReplies(u);
      if u.Some? {
        sessions := sessions + [Session(u.value, true, [])];
      }
    }

    method LoginReplies(u: Option<nat>) returns (replies: seq<string>)
      requires Valid() && (u.Some? ==> u.value < registered)
      ensures replies != [] && |Fields(replies[0])| == 2 && (Atoi(Fields(replies[0])[1]) == 1 <==> u.Some?)
      ensures u.None? ==> |replies| == 1
      ensures u.Some? ==> replies == [replies[0], "Welcome " + users[u.value].firstName + "!"]
    {
      ReplyFields("verusr", u.Some?);
      hide Fields, Atoi, Reply;
      replies := [Reply("verusr", u.Some?)];
      if u.Some? {
        var welcome := "Welcome ";
        welcome := welcome + users[u.value].firstName;
        welcome := welcome + "!";
        replies := replies + [welcome];
      }
    }

    /** Operation 1: to the mailbox of the named user. The client shows the acknowledgement as sent, or as not sent if
        there is no such user. */
    method HandlePrivate(s: nat, line: string) returns (ack: string)
      requires Valid() && NUL !in line && Enabled(Abs(), SendPrivate(s, line))
      modifies this`queue, this`posted
      ensures Valid() && Abs() == Next(old(Abs()), SendPrivate(s, line))
      ensures Show(ack) == Some(Ack(Find(old(Abs()).users, Decode(line).value.to).Some?))
    {
      AckShown(true);
      AckShown(false);
      var m := DecodeMsg(line);
      var from := FindUser(m.value.from);
      var target := FindUser(m.value.to);
      if target.Some? {
        assert users[..registered][target.value] == users[target.value];
        assert from.Some?;
        assert users[..registered][from.value] == users[from.value];
        MsgSnd(Mail(users[target.value].id, users[from.value].username, m.value.text), Private);
        return Reply("msgack", true);
      }
      return Reply("msgack", false);
    }

    /** Operation 2: to the broadcaster. The client shows the acknowledgement as sent. */
    method HandleBroadcast(s: nat, line: string) returns (ack: string)
      requires Valid() && NUL !in line && Enabled(Abs(), SendAll(s, line))
      modifies this`queue, this`posted
      ensures Valid() && Abs() == Next(old(Abs()), SendAll(s, line))
      ensures Show(ack) == Some(Ack(true))
    {
      AckShown(true);
      var m := DecodeMsg(line);
      var from := FindUser(m.value.from);
      assert from.Some?;
      assert users[..registered][from.value] == users[from.value];
      MsgSnd(Mail(BROADCAST, users[from.value].username, m.value.text), ToAll);
      return Reply("msgack", true);
    }

    method MarkUser(s: nat, line: string, v: int)
      requires Valid() && NUL !in line && CanMark(Abs(), s, line)
      modifies users
      ensures Valid() && Abs() == Mark(old(Abs()), s, line, v)
    {
      var own, name := TwoFields(line);
      var p := FindUser(name);
      var u := sessions[s].user;
      ghost var before := users[..registered];
      assert before[u] == users[u] && before[p.value] == users[p.value];
      var id := users[p.value].id;
      users[u] := users[u].(blocked := users[u].blocked[id := v]);
      assert users[..registered] == before[u := before[u].(blocked := before[u].blocked[id := v])];
    }

    /** Operation 4. */
    method HandleBlock(s: nat, line: string)
      requires Valid() && NUL !in line && Enabled(Abs(), Block(s, line))
      modifies users
      ensures Valid() && Abs() == Next(old(Abs()), Block(s, line))
    {
      MarkUser(s, line, 1);
    }

    /** Operation 5. */
    method HandleUnblock(s: nat, line: string)
      requires Valid() && NUL !in line && Enabled(Abs(), Unblock(s, line))
      modifies users
      ensures Valid() && Abs() == Next(old(Abs()), Unblock(s, line))
    {
      MarkUser(s, line, 0);
    }

    /** Operation 6: the session and its listener are gone; the mailbox keeps what it holds. */
    method HandleLogout(s: nat)
      requires Valid() && Enabled(Abs(), Logout(s))
      modifies this`sessions
      ensures Valid() && Abs() == Next(old(Abs()), Logout(s))
      ensures !Open(Abs(), s) && !CanListen(Abs(), s) && Abs().queue == old(Abs().queue)
      ensures forall q :: 0 <= q < |sessions| && q != s ==> (Open(Abs(), q) <==> old(Open(Abs(), q)))
    {
      sessions := sessions[s := sessions[s].(alive := false)];
    }

    /** One turn of a listener: receive, filter, forward. */
    method ListenOnce(s: nat)
      requires Valid() && Enabled(Abs(), Listen(s))
      modifies this`queue, this`sessions, this`taken
      ensures Valid() && Abs() == Next(old(Abs()), Listen(s))
    {
      var u := sessions[s].user;
      assert users[..registered][u] == users[u];
      var mail, at := MsgRcv(users[u].id);
      var sender := FindUser(mail.from);
      assert users[..registered][sender.value] == users[sender.value];
      var dropped := users[u].blocked[users[sender.value].id] != 0;
      if !dropped {
        var line := "inc_msg;";
        line := line + users[sender.value].firstName;
        line := line + ";";
        line := line + mail.text;
        sessions := sessions[s := sessions[s].(wire := sessions[s].wire + [line])];
      }
      taken := taken + [Delivery(Listener(s), mail, dropped)];
    }

    /** The broadcaster's msgrcv. */
    method BroadcastReceive()
      requires Valid() && Enabled(Abs(), FanStart)
      modifies this`queue, this`fan, this`taken
      ensures Valid() && Abs() == Next(old(Abs()), FanStart)
    {
      var mail, at := MsgRcv(BROADCAST);
      fan := Fanning(mail, 0);
      taken := taken + [Delivery(Broadcaster, mail, false)];
    }

    /** One turn of the broadcaster's loop: the body for the next user, or the exit. */
    method BroadcastTurn() returns (done: bool)
      requires Valid() && fan.Fanning?
      modifies this`queue, this`fan, this`posted, this`rounds
      ensures done <==> old(fan.next) >= old(registered)
      ensures Valid() && Abs() == Next(old(Abs()), if done then FanEnd else FanStep)
    {
      var i, mail := fan.next, fan.mail;
      if i < registered {
        assert users[..registered][i] == users[i];
        fan := Fanning(mail, i + 1);
        if mail.from != users[i].username {
          MsgSnd(mail.(mtype := users[i].id), Copy(|rounds|));
        }
        return false;
      }
      fan := Idle;
      rounds := rounds + [Round(mail, registered)];
      return true;
    }
  }

  lemma LoginIs(st: State, line: string)
    requires Enabled(st, Login(line))
    ensures |Fields(line)| >= 2
    ensures var u := Verify(st.users, Fields(line)[0], Fields(line)[1]);
            && (u.None? ==> Next(st, Login(line)) == st)
            && (u.Some? ==> Next(st, Login(line)) == st.(sessions := st.sessions + [Session(u.value, true, [])]))
  {
    hide Fields, Verify;
  }

  lemma {:induction false} FindAt(users: seq<User>, name: string, i: nat)
    requires i < |users| && users[i].username == name
    requires forall j :: 0 <= j < i ==> users[j].username != name
    ensures Find(users, name) == Some(i)
  {
    if i > 0 {
      FindAt(users[1..], name, i - 1);
    }
  }
}
