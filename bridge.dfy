/**
 * `main` in main.cpp: the receive thread, which turns each message from the
 * server into a queued `Task`, and the main loop, which watches Word for
 * saves and then runs every queued task, answering each save and replace.
 * The two threads are modelled as two methods, each one pass of its loop,
 * that the caller interleaves; the mutex and the sleeps are left out.
 */
module Bridge {
  import opened Base
  import opened Host
  import opened Json
  import opened Protocol
  import opened Tasks
  import opened Word
  import opened WebSocket

  /* ---------- running one task ---------- */

  /** The calls `ws.Send` makes: nothing unless connected. */
  function SendCalls(connected: bool, msg: string, ok: bool): seq<Call> {
    if connected then [SendText(msg, ok)] else []
  }

  /** What the calls made for one task answered; a field is unused when its call is not made. */
  datatype Answers = Answers(check: PathProbe, replace: ReplaceProbe, save: SaveProbe, sent: bool)

  /** Whether a replace gets past the path check: there is none, or the paths match. */
  predicate Checked(t: Task, init: bool, a: Answers) {
    t.checkPath == "" || PathOk(init, a.check, t.checkPath)
  }

  /** The connection flag after the path check. */
  function InitChecked(t: Task, init: bool, a: Answers): bool {
    if t.checkPath == "" then init else init && a.check.alive
  }

  /** The answer sent for a task: save and replace get one, every other action none. */
  function Reply(t: Task, init: bool, a: Answers): Option<Outbound> {
    if t.action == "save" then Some(Response(t.id, SavedOk(init, a.save)))
    else if t.action == "replace" then
      if !Checked(t, init, a) then Some(PathMismatch(t.id))
      else Some(Response(t.id, Replaced(InitChecked(t, init, a), t.kind, a.replace)))
    else None
  }

  /** The path check of a replace, made only when the task names a path. */
  function CheckCalls(t: Task, init: bool, a: Answers): seq<Call> {
    if t.checkPath != "" then CheckPathCalls(init, a.check) else []
  }

  /** The replace itself, and the save that follows a successful one. */
  function SwapWork(t: Task, init: bool, a: Answers): seq<Call> {
    ReplaceCalls(init, t.content, t.kind, a.replace)
    + if Replaced(init, t.kind, a.replace) then SaveCalls(true, a.save) else []
  }

  /** The calls into Word one task makes, in order. */
  function WorkCalls(t: Task, init: bool, a: Answers): seq<Call> {
    if t.action == "save" then SaveCalls(init, a.save)
    else if t.action == "replace" then
      CheckCalls(t, init, a) + if Checked(t, init, a) then SwapWork(t, InitChecked(t, init, a), a) else []
    else []
  }

  /** The send of the answer, if there is one. */
  function Sends(reply: Option<Outbound>, connected: bool, sent: bool): seq<Call> {
    if reply.Some? then SendCalls(connected, Render(reply.value), sent) else []
  }

  /** The calls one task makes, in order: its work in Word, then its answer. */
  function TaskCalls(t: Task, init: bool, connected: bool, a: Answers): seq<Call> {
    WorkCalls(t, init, a) + Sends(Reply(t, init, a), connected, a.sent)
  }

  /** The connection flag after one task. */
  function InitAfter(t: Task, init: bool, a: Answers): bool {
    if t.action == "save" then init && a.save.alive
    else if t.action == "replace" then
      var i1 := InitChecked(t, init, a);
      if !Checked(t, init, a) then i1
      else if Replaced(i1, t.kind, a.replace) then a.save.alive
      else i1 && a.replace.alive
    else init
  }

  /* ---------- draining the queue ---------- */

  /** The calls made by running the tasks ts in order. */
  function DrainCalls(ts: seq<Task>, init: bool, connected: bool, answers: seq<Answers>): seq<Call>
    requires |answers| == |ts|
    decreases |ts|
  {
    if ts == [] then []
    else
      var n := |ts| - 1;
      DrainCalls(ts[..n], init, connected, answers[..n])
      + TaskCalls(ts[n], InitAfterAll(ts[..n], init, answers[..n]), connected, answers[n])
  }

  /** The connection flag after running the tasks ts. */
  function InitAfterAll(ts: seq<Task>, init: bool, answers: seq<Answers>): bool
    requires |answers| == |ts|
    decreases |ts|
  {
    if ts == [] then init
    else
      var n := |ts| - 1;
      InitAfter(ts[n], InitAfterAll(ts[..n], init, answers[..n]), answers[n])
  }

  /** The answers produced by running the tasks ts, in order. */
  function Replies(ts: seq<Task>, init: bool, answers: seq<Answers>): seq<Outbound>
    requires |answers| == |ts|
    decreases |ts|
  {
    if ts == [] then []
    else
      var n := |ts| - 1;
      var r := Reply(ts[n], InitAfterAll(ts[..n], init, answers[..n]), answers[n]);
      Replies(ts[..n], init, answers[..n]) + (if r.Some? then [r.value] else [])
  }

  /** Running one more task appends its calls and moves the flag on. */
  lemma DrainStep(ds: seq<Task>, t: Task, init: bool, connected: bool, answers: seq<Answers>, a: Answers)
    requires |answers| == |ds|
    ensures DrainCalls(ds + [t], init, connected, answers + [a])
            == DrainCalls(ds, init, connected, answers) + TaskCalls(t, InitAfterAll(ds, init, answers), connected, a)
    ensures InitAfterAll(ds + [t], init, answers + [a]) == InitAfter(t, InitAfterAll(ds, init, answers), a)
  {
    assert (ds + [t])[..|ds|] == ds && (ds + [t])[|ds|] == t;
    assert (answers + [a])[..|ds|] == answers && (answers + [a])[|ds|] == a;
  }

  /** The log after one more task, in terms of the tasks run so far. */
  lemma DrainExtend(log0: seq<Call>, ds: seq<Task>, t: Task, init: bool, connected: bool,
                    answers: seq<Answers>, a: Answers)
    requires |answers| == |ds|
    ensures log0 + DrainCalls(ds, init, connected, answers) + TaskCalls(t, InitAfterAll(ds, init, answers), connected, a)
            == log0 + DrainCalls(ds + [t], init, connected, answers + [a])
    ensures InitAfter(t, InitAfterAll(ds, init, answers), a) == InitAfterAll(ds + [t], init, answers + [a])
  {
    DrainStep(ds, t, init, connected, answers, a);
    Associative(log0, DrainCalls(ds, init, connected, answers),
                TaskCalls(t, InitAfterAll(ds, init, answers), connected, a));
  }

  /* ---------- the receive thread ---------- */

  /** What one pass of the receive thread comes to. */
  datatype Heard =
    | NoServer        // not connected and Connect failed: the thread sleeps and retries
    | Waiting         // Receive has not returned within the look-ahead
    | Closed          // Receive failed and closed the client
    | Ignored         // the message was not an object, or had no action
    | Queued(t: Task) // the message became a task at the back of the queue
    | Hung            // the parser loops forever on this message
    | Undefined       // the parser reads past the end of this message

  /** What the receive thread makes of one message. */
  function Interpret(msg: string, scan: Scanner): Heard {
    match Decode(msg, scan)
    case Parsed(v, _) => (match ToTask(v) case None => Ignored case Some(t) => Queued(t))
    case Diverges => Hung
    case Overrun => Undefined
  }

  /* ---------- the main loop's watch on Word ---------- */

  /** Whether the main loop took a Saved reading: Word answered the probe, or a fresh attach succeeded. */
  function Reached(init: bool, probe: bool, attached: bool): bool {
    if init && probe then true else attached
  }

  /** The path the save callback sends, if any. */
  function Announcement(init: bool, last: bool, callback: bool, probe: bool, attached: bool, sp: SavedProbe): Option<string> {
    if Reached(init, probe, attached) then Announced(last, callback, true, sp) else None
  }

  /** The calls into Word at the start of a main-loop pass: IsConnected, then CheckSavedState or Connect. */
  function LookCalls(init: bool, last: bool, callback: bool, probe: bool, attached: bool, sp: SavedProbe): seq<Call> {
    ProbeCalls(init, probe) + AfterProbeCalls(init, last, callback, probe, attached, sp)
  }

  /** After the probe: CheckSavedState when Word answered it, Connect otherwise. */
  function AfterProbeCalls(init: bool, last: bool, callback: bool, probe: bool, attached: bool, sp: SavedProbe): seq<Call> {
    if init && probe then SavedStateCalls(true, last, callback, sp)
    else [Attach(attached)] + (if attached then SavedStateCalls(true, last, callback, sp) else [])
  }

  /** The calls of the first half of a main-loop pass: the look at Word, then the saved event if one is due. */
  function WatchCalls(init: bool, last: bool, callback: bool, connected: bool,
                      probe: bool, attached: bool, sp: SavedProbe, sent: bool): seq<Call> {
    var announce := Announcement(init, last, callback, probe, attached, sp);
    LookCalls(init, last, callback, probe, attached, sp)
    + (if announce.Some? then SendCalls(connected, Render(SavedEvent(announce.value)), sent) else [])
  }

  /* ---------- the program ---------- */

  /** The objects `main` sets up, sharing one environment. */
  class Program {
    const env: Env
    const word: WordAutomation
    const ws: WebSocketClient
    const parser: JsonParser
    const queue: TaskQueue

    /** Word and the socket talk to the same environment. */
    predicate Valid() {
      word.env == env && ws.env == env
    }

    constructor (env: Env, scan: Scanner)
      ensures Valid() && this.env == env && parser.scan == scan
      ensures !word.initialized && word.lastSavedState && word.hasCallback
      ensures !ws.connected && queue.items == []
      ensures fresh(word) && fresh(ws) && fresh(parser) && fresh(queue)
    {
      this.env := env;
      var w := new WordAutomation(env);
      w.SetCallback();
      word := w;
      ws := new WebSocketClient(env);
      parser := new JsonParser(scan);
      queue := new TaskQueue();
    }

    /** One task, as the main loop runs it. */
    method Execute(t: Task) returns (ghost a: Answers)
      requires Valid()
      modifies word`initialized, env`log
      ensures word.initialized == InitAfter(t, old(word.initialized), a)
      ensures env.log == old(env.log) + TaskCalls(t, old(word.initialized), ws.connected, a)
    {
      ghost var log0 := env.log;
      var reply;
      reply, a := Work(t);
      if reply.Some? {
        var sent := ws.Send(Render(reply.value));
        a := a.(sent := sent);
      }
      Associative(log0, WorkCalls(t, old(word.initialized), a), Sends(reply, ws.connected, a.sent));
    }

    /** The work of one task in Word, and the answer it calls for. */
    method Work(t: Task) returns (reply: Option<Outbound>, ghost a: Answers)
      requires Valid()
      modifies word`initialized, env`log
      ensures reply == Reply(t, old(word.initialized), a) && !a.sent
      ensures word.initialized == InitAfter(t, old(word.initialized), a)
      ensures env.log == old(env.log) + WorkCalls(t, old(word.initialized), a)
    {
      a := Answers(PathProbe(false, false, None), ReplaceProbe(false, "", false, false, false, false),
                   SaveProbe(false, false, false), false);
      reply := None;
      if t.action == "save" {
        var ok;
        ghost var s;
        ok, s := word.SaveDocument();
        a := a.(save := s);
        reply := Some(Response(t.id, ok));
      } else if t.action == "replace" {
        reply, a := ReplaceTask(t);
      }
    }

    /** A replace: the path check, then the replace and the save after a success. */
    method ReplaceTask(t: Task) returns (reply: Option<Outbound>, ghost a: Answers)
      requires Valid() && t.action == "replace"
      modifies word`initialized, env`log
      ensures reply == Reply(t, old(word.initialized), a) && !a.sent
      ensures word.initialized == InitAfter(t, old(word.initialized), a)
      ensures env.log == old(env.log) + WorkCalls(t, old(word.initialized), a)
    {
      ghost var init, log0 := word.initialized, env.log;
      a := Answers(PathProbe(false, false, None), ReplaceProbe(false, "", false, false, false, false),
                   SaveProbe(false, false, false), false);
      var pass := true;
      if t.checkPath != "" {
        ghost var c;
        pass, c := word.CheckPath(t.checkPath);
        a := a.(check := c);
      }
      assert env.log == log0 + CheckCalls(t, init, a);
      if !pass {
        return Some(PathMismatch(t.id)), a;
      }
      var ok;
      ok, a := SwapTask(t, a);
      reply := Some(Response(t.id, ok));
      Associative(log0, CheckCalls(t, init, a), SwapWork(t, InitChecked(t, init, a), a));
    }

    /** ReplaceDocument, and SaveDocument when it succeeded. */
    method SwapTask(t: Task, ghost a0: Answers) returns (ok: bool, ghost a: Answers)
      requires Valid()
      modifies word`initialized, env`log
      ensures a == a0.(replace := a.replace, save := a.save)
      ensures ok == Replaced(old(word.initialized), t.kind, a.replace)
      ensures word.initialized == (if ok then a.save.alive else old(word.initialized) && a.replace.alive)
      ensures env.log == old(env.log) + SwapWork(t, old(word.initialized), a)
    {
      ghost var r;
      ok, r := word.ReplaceDocument(t.content, t.kind);
      a := a0.(replace := r);
      if ok {
        var saved;
        ghost var s;
        saved, s := word.SaveDocument();
        a := a.(save := s);
      }
    }

    /** The inner loop of the main loop: pop and run every queued task, oldest first. */
    method Drain() returns (ghost answers: seq<Answers>)
      requires Valid()
      modifies word`initialized, env`log, queue
      ensures queue.items == [] && |answers| == |old(queue.items)|
      ensures word.initialized == InitAfterAll(old(queue.items), old(word.initialized), answers)
      ensures env.log == old(env.log) + DrainCalls(old(queue.items), old(word.initialized), ws.connected, answers)
    {
      ghost var ts, init, log0 := queue.items, word.initialized, env.log;
      ghost var done: seq<Task> := [];
      answers := [];
      while !queue.IsEmpty()
        invariant ts == done + queue.items && |answers| == |done|
        invariant word.initialized == InitAfterAll(done, init, answers)
        invariant env.log == log0 + DrainCalls(done, init, ws.connected, answers)
        decreases |queue.items|
      {
        var t;
        ghost var a;
        t, a := RunNext(ts, done, init, log0, answers);
        done, answers := done + [t], answers + [a];
      }
      assert done + [] == done;
    }

    /** One pass of the inner loop: the front task is popped and run after the tasks `done`. */
    method RunNext(ghost ts: seq<Task>, ghost done: seq<Task>, ghost init: bool, ghost log0: seq<Call>,
                   ghost answers: seq<Answers>)
      returns (t: Task, ghost a: Answers)
      requires Valid() && queue.items != [] && |answers| == |done| && ts == done + queue.items
      requires word.initialized == InitAfterAll(done, init, answers)
      requires env.log == log0 + DrainCalls(done, init, ws.connected, answers)
      modifies word`initialized, env`log, queue
      ensures [t] + queue.items == old(queue.items) && ts == done + [t] + queue.items
      ensures word.initialized == InitAfterAll(done + [t], init, answers + [a])
      ensures env.log == log0 + DrainCalls(done + [t], init, ws.connected, answers + [a])
    {
      t := queue.Pop();
      assert ts == done + [t] + queue.items;
      a := Execute(t);
      DrainExtend(log0, done, t, init, ws.connected, answers, a);
    }

    /** The first half of a main-loop pass: look at Word, then send the saved event if one is due. */
    method Watch() returns (ghost probe: bool, ghost attached: bool, ghost sp: SavedProbe, ghost sent: bool)
      requires Valid()
      modifies word`initialized, word`lastSavedState, env`log
      ensures var init, last := old(word.initialized), old(word.lastSavedState);
              var reached := Reached(init, probe, attached);
              word.initialized == (reached && sp.alive)
              && word.lastSavedState == (if reached then Advance(last, ReadingOf(true, sp)) else last)
              && env.log == old(env.log) + WatchCalls(init, last, word.hasCallback, ws.connected, probe, attached, sp, sent)
    {
      ghost var log0 := env.log;
      var announce;
      announce, probe, attached, sp := Look();
      sent := false;
      if announce.Some? {
        var s := ws.Send(Render(SavedEvent(announce.value)));
        sent := s;
      }
      ghost var tail := if announce.Some? then SendCalls(ws.connected, Render(SavedEvent(announce.value)), sent) else [];
      Associative(log0, LookCalls(old(word.initialized), old(word.lastSavedState), word.hasCallback, probe, attached, sp), tail);
    }

    /** IsConnected, then CheckSavedState when connected and Connect when not. */
    method Look() returns (announce: Option<string>, ghost probe: bool, ghost attached: bool, ghost sp: SavedProbe)
      requires Valid()
      modifies word`initialized, word`lastSavedState, env`log
      ensures var init, last := old(word.initialized), old(word.lastSavedState);
              var reached := Reached(init, probe, attached);
              announce == Announcement(init, last, word.hasCallback, probe, attached, sp)
              && word.initialized == (reached && sp.alive)
              && word.lastSavedState == (if reached then Advance(last, ReadingOf(true, sp)) else last)
              && env.log == old(env.log) + LookCalls(init, last, word.hasCallback, probe, attached, sp)
    {
      ghost var init, last, log0 := word.initialized, word.lastSavedState, env.log;
      sp, attached := SavedProbe(false, false, None, None), false;
      var up := word.IsConnected();
      probe := up;
      if !up {
        announce, attached, sp := Reattach();
      } else {
        announce, sp := word.CheckSavedState();
      }
      Associative(log0, ProbeCalls(init, probe), AfterProbeCalls(init, last, word.hasCallback, probe, attached, sp));
    }

    /** The branch of a main-loop pass that finds Word disconnected: Connect. */
    method Reattach() returns (announce: Option<string>, ghost attached: bool, ghost sp: SavedProbe)
      requires Valid() && !word.initialized
      modifies word`initialized, word`lastSavedState, env`log
      ensures var last := old(word.lastSavedState);
              word.initialized == (attached && sp.alive)
              && word.lastSavedState == (if attached then Advance(last, ReadingOf(true, sp)) else last)
              && announce == (if attached then Announced(last, word.hasCallback, true, sp) else None)
              && env.log == old(env.log) + ([Attach(attached)] + if attached then SavedStateCalls(true, last, word.hasCallback, sp) else [])
    {
      var ok;
      ok, announce, attached, sp := word.Connect();
      if attached {
        Associative(old(env.log), [Attach(true)], SavedStateCalls(true, old(word.lastSavedState), word.hasCallback, sp));
      }
    }

    /** One pass of the main loop. */
    method Cycle() returns (ghost probe: bool, ghost attached: bool, ghost sp: SavedProbe, ghost sent: bool,
                            ghost answers: seq<Answers>)
      requires Valid()
      modifies word`initialized, word`lastSavedState, env`log, queue
      ensures queue.items == [] && |answers| == |old(queue.items)|
      ensures var init, last := old(word.initialized), old(word.lastSavedState);
              var reached := Reached(init, probe, attached);
              env.log == old(env.log)
                         + WatchCalls(init, last, word.hasCallback, ws.connected, probe, attached, sp, sent)
                         + DrainCalls(old(queue.items), reached && sp.alive, ws.connected, answers)
              && word.lastSavedState == (if reached then Advance(last, ReadingOf(true, sp)) else last)
              && word.initialized == InitAfterAll(old(queue.items), reached && sp.alive, answers)
    {
      probe, attached, sp, sent := Watch();
      answers := Drain();
    }

    /** One pass of the receive thread. */
    method ReceiveStep() returns (h: Heard, ghost dialed: bool)
      requires Valid()
      modifies ws`connected, env`log, env`incoming, parser, queue
      ensures queue.items == old(queue.items) + (if h.Queued? then [h.t] else [])
      ensures env.log == old(env.log) + (if old(ws.connected) then [] else [OpenSocket(dialed)])
      ensures !old(ws.connected) && !dialed ==> h == NoServer && env.incoming == old(env.incoming) && !ws.connected
      ensures old(ws.connected) || dialed ==>
                match Reassemble(old(env.incoming))
                case Got(m, u) => h == Interpret(m, parser.scan) && env.incoming == old(env.incoming)[u..] && ws.connected
                case Lost(u) => h == Closed && env.incoming == old(env.incoming)[u..] && !ws.connected
                case Blocked => h == Waiting && env.incoming == old(env.incoming) && ws.connected
    {
      dialed := false;
      if !ws.connected {
        var ok := ws.Connect();
        dialed := ok;
        if !ok {
          return NoServer, dialed;
        }
      }
      var d := ws.Receive();
      match d
      case Dropped => h := Closed;
      case Pending => h := Waiting;
      case Delivered(msg) =>
        var data := parser.Parse(msg);
        match data
        case Diverges => h := Hung;
        case Overrun => h := Undefined;
        case Parsed(v, _) =>
          var t := ToTask(v);
          if t.Some? {
            queue.Push(t.value);
            h := Queued(t.value);
          } else {
            h := Ignored;
          }
    }
  }

  /* ---------- what the bridge promises ---------- */

  /** Calls that send nothing on the socket. */
  predicate Quiet(cs: seq<Call>) {
    forall c :: c in cs ==> !c.SendText?
  }

  /** The messages sent on the socket, in order. */
  function Sent(cs: seq<Call>): seq<string>
    decreases |cs|
  {
    if cs == [] then [] else Sent(cs[..|cs| - 1]) + (if cs[|cs| - 1].SendText? then [cs[|cs| - 1].msg] else [])
  }

  lemma {:induction false} SentAppend(a: seq<Call>, b: seq<Call>)
    ensures Sent(a + b) == Sent(a) + Sent(b)
    decreases |b|
  {
    if b == [] {
      assert a + b == a;
    } else {
      var n := |b| - 1;
      assert (a + b)[..|a + b| - 1] == a + b[..n] && (a + b)[|a + b| - 1] == b[n];
      SentAppend(a, b[..n]);
    }
  }

  lemma {:induction false} SentQuiet(cs: seq<Call>)
    requires Quiet(cs)
    ensures Sent(cs) == []
    decreases |cs|
  {
    if cs != [] {
      var n := |cs| - 1;
      assert cs[n] in cs;
      assert forall c :: c in cs[..n] ==> c in cs;
      SentQuiet(cs[..n]);
    }
  }

  /** ReplaceDocument sends nothing. */
  lemma ReplaceQuiet(init: bool, content: string, kind: string, a: ReplaceProbe)
    ensures Quiet(ReplaceCalls(init, content, kind, a))
  {
    PrepareQuiet(init, content, kind, a);
    assert Quiet(DocumentCalls(TempFile(a.dir, kind), a.doc, a.range, a.inserted));
  }

  /** Word's calls for one task send nothing. */
  lemma WorkQuiet(t: Task, init: bool, a: Answers)
    ensures Quiet(WorkCalls(t, init, a))
  {
    if t.action == "save" {
      assert Quiet(SaveCalls(init, a.save));
    } else if t.action == "replace" {
      var i1 := InitChecked(t, init, a);
      ReplaceQuiet(i1, t.content, t.kind, a.replace);
      assert Quiet(SaveCalls(true, a.save));
      assert Quiet(SwapWork(t, i1, a));
      assert Quiet(CheckCalls(t, init, a));
    }
  }

  /** The messages one task sends on a connected socket: its answer, rendered, and nothing else. */
  lemma TaskSends(t: Task, init: bool, a: Answers)
    ensures var r := Reply(t, init, a);
            Sent(TaskCalls(t, init, true, a)) == if r.Some? then [Render(r.value)] else []
  {
    var r := Reply(t, init, a);
    WorkQuiet(t, init, a);
    SentQuiet(WorkCalls(t, init, a));
    SentAppend(WorkCalls(t, init, a), Sends(r, true, a.sent));
    if r.Some? {
      assert Sends(r, true, a.sent) == [SendText(Render(r.value), a.sent)];
      assert Sent([SendText(Render(r.value), a.sent)]) == Sent([]) + [Render(r.value)];
    }
  }

  /** Messages rendered in order. */
  function Rendered(ms: seq<Outbound>): seq<string>
    decreases |ms|
  {
    if ms == [] then [] else Rendered(ms[..|ms| - 1]) + [Render(ms[|ms| - 1])]
  }

  /**
   * On a connected socket, draining the queue sends exactly the answers of
   * the tasks, rendered, in the order of the tasks.
   */
  lemma {:induction false} DrainSends(ts: seq<Task>, init: bool, answers: seq<Answers>)
    requires |answers| == |ts|
    ensures Sent(DrainCalls(ts, init, true, answers)) == Rendered(Replies(ts, init, answers))
    decreases |ts|
  {
    if ts != [] {
      var n := |ts| - 1;
      var before := InitAfterAll(ts[..n], init, answers[..n]);
      var r := Reply(ts[n], before, answers[n]);
      var rs := Replies(ts[..n], init, answers[..n]);
      DrainSends(ts[..n], init, answers[..n]);
      SentAppend(DrainCalls(ts[..n], init, true, answers[..n]), TaskCalls(ts[n], before, true, answers[n]));
      TaskSends(ts[n], before, answers[n]);
      RenderedSnoc(rs, r);
    }
  }

  /** Rendering a list with one more answer, if there is one, renders that answer last. */
  lemma RenderedSnoc(rs: seq<Outbound>, r: Option<Outbound>)
    ensures Rendered(rs + (if r.Some? then [r.value] else []))
            == Rendered(rs) + (if r.Some? then [Render(r.value)] else [])
  {
    if r.Some? {
      assert (rs + [r.value])[..|rs|] == rs;
    } else {
      assert rs + [] == rs;
    }
  }

  /** The id an answer carries. */
  function IdOf(m: Outbound): string {
    match m
    case Response(id, _) => id
    case PathMismatch(id) => id
    case SavedEvent(_) => ""
  }

  function Ids(ms: seq<Outbound>): seq<string>
    decreases |ms|
  {
    if ms == [] then [] else Ids(ms[..|ms| - 1]) + [IdOf(ms[|ms| - 1])]
  }

  /** The ids of the tasks that are answered: the saves and the replaces, in order. */
  function AnsweredIds(ts: seq<Task>): seq<string>
    decreases |ts|
  {
    if ts == [] then []
    else
      var t := ts[|ts| - 1];
      AnsweredIds(ts[..|ts| - 1]) + if t.action == "save" || t.action == "replace" then [t.id] else []
  }

  /** Every save and every replace is answered once, with its own id, in the order the tasks were queued. */
  lemma {:induction false} RepliesInOrder(ts: seq<Task>, init: bool, answers: seq<Answers>)
    requires |answers| == |ts|
    ensures Ids(Replies(ts, init, answers)) == AnsweredIds(ts)
    decreases |ts|
  {
    if ts != [] {
      var n := |ts| - 1;
      var r := Reply(ts[n], InitAfterAll(ts[..n], init, answers[..n]), answers[n]);
      var rs := Replies(ts[..n], init, answers[..n]);
      RepliesInOrder(ts[..n], init, answers[..n]);
      if r.Some? {
        assert (rs + [r.value])[..|rs|] == rs;
      } else {
        assert rs + [] == rs;
      }
    }
  }

  /** A save is answered with success exactly when Word's Save call succeeded. */
  lemma SaveStatus(t: Task, init: bool, a: Answers)
    requires t.action == "save"
    ensures Reply(t, init, a) == Some(Response(t.id, SaveDoc(true) in WorkCalls(t, init, a)))
  {
  }

  /**
   * A replace whose path check fails is answered with the mismatch error, and
   * only reads Word's state: no file is written and the document is left alone.
   */
  lemma MismatchRefused(t: Task, init: bool, a: Answers)
    requires t.action == "replace" && t.checkPath != "" && !PathOk(init, a.check, t.checkPath)
    ensures Reply(t, init, a) == Some(PathMismatch(t.id))
    ensures forall c :: c in WorkCalls(t, init, a) ==> c.GetVersion? || c.GetActiveDocument? || c.GetFullName?
  {
  }

  /**
   * A replace that passes the check is answered with success exactly when its
   * InsertFile succeeded; the save that follows does not change the answer.
   */
  lemma ReplaceStatus(t: Task, init: bool, a: Answers, s: SaveProbe)
    requires t.action == "replace" && Checked(t, init, a)
    ensures var i1 := InitChecked(t, init, a);
            Reply(t, init, a)
            == Some(Response(t.id, InsertFile(TempFile(a.replace.dir, t.kind), true)
                                   in ReplaceCalls(i1, t.content, t.kind, a.replace)))
    ensures Reply(t, init, a.(save := s)) == Reply(t, init, a)
  {
    ReplacedIffInserted(InitChecked(t, init, a), t.content, t.kind, a.replace);
  }

  /** Neither the path check nor the replace itself saves the document. */
  lemma CheckAndReplaceDontSave(t: Task, init: bool, a: Answers)
    ensures forall c :: c in CheckCalls(t, init, a) ==> !c.SaveDoc?
    ensures forall c :: c in ReplaceCalls(InitChecked(t, init, a), t.content, t.kind, a.replace) ==> !c.SaveDoc?
  {
    var i1 := InitChecked(t, init, a);
    PrepareQuiet(i1, t.content, t.kind, a.replace);
    var file := TempFile(a.replace.dir, t.kind);
    assert forall c :: c in DocumentCalls(file, a.replace.doc, a.replace.range, a.replace.inserted) ==> !c.SaveDoc?;
  }

  /** A replace saves the document only after it succeeded. */
  lemma SaveOnlyAfterReplace(t: Task, init: bool, a: Answers)
    requires t.action == "replace" && SaveDoc(a.save.saved) in WorkCalls(t, init, a)
    ensures Reply(t, init, a) == Some(Response(t.id, true))
  {
    CheckAndReplaceDontSave(t, init, a);
  }

  /**
   * A replace answered with success passed its path check, and the save
   * (`if (ok) word.SaveDocument();`) follows its calls, as the last of the task's work.
   */
  lemma ReplaceThenSave(t: Task, init: bool, a: Answers)
    requires t.action == "replace" && Reply(t, init, a) == Some(Response(t.id, true))
    ensures Checked(t, init, a) && Replaced(InitChecked(t, init, a), t.kind, a.replace)
    ensures WorkCalls(t, init, a)
            == CheckCalls(t, init, a) + ReplaceCalls(InitChecked(t, init, a), t.content, t.kind, a.replace)
               + SaveCalls(true, a.save)
  {
    Associative(CheckCalls(t, init, a), ReplaceCalls(InitChecked(t, init, a), t.content, t.kind, a.replace),
                SaveCalls(true, a.save));
  }

  /** Any other action is dropped: no call, no answer, no change. */
  lemma OtherIgnored(t: Task, init: bool, connected: bool, a: Answers)
    requires t.action != "save" && t.action != "replace"
    ensures TaskCalls(t, init, connected, a) == [] && Reply(t, init, a) == None && InitAfter(t, init, a) == init
  {
  }

  /** A look at Word sends nothing. */
  lemma LookSilent(init: bool, last: bool, callback: bool, probe: bool, attached: bool, sp: SavedProbe)
    ensures Sent(LookCalls(init, last, callback, probe, attached, sp)) == []
  {
    var look := LookCalls(init, last, callback, probe, attached, sp);
    assert Quiet(look);
    SentQuiet(look);
  }

  /** The saved event goes out, on a connected socket, exactly when the detector fired with a callback and a readable path. */
  lemma WatchSends(init: bool, last: bool, callback: bool, probe: bool, attached: bool, sp: SavedProbe, sent: bool)
    ensures var announce := Announcement(init, last, callback, probe, attached, sp);
            Sent(WatchCalls(init, last, callback, true, probe, attached, sp, sent))
            == if announce.Some? then [Render(SavedEvent(announce.value))] else []
  {
    var announce := Announcement(init, last, callback, probe, attached, sp);
    var look := LookCalls(init, last, callback, probe, attached, sp);
    LookSilent(init, last, callback, probe, attached, sp);
    if announce.Some? {
      var tail := SendCalls(true, Render(SavedEvent(announce.value)), sent);
      assert WatchCalls(init, last, callback, true, probe, attached, sp, sent) == look + tail;
      SentAppend(look, tail);
      assert Sent(tail) == Sent([]) + [Render(SavedEvent(announce.value))];
    } else {
      assert WatchCalls(init, last, callback, true, probe, attached, sp, sent) == look + [];
      assert look + [] == look;
    }
  }

  /** The save command, as the server writes it, becomes a save task with its id. */
  lemma SaveCommandQueued(id: string, scan: Scanner)
    requires Plain(id)
    ensures Interpret(ObjectText([("action", "save"), ("id", id)]), scan) == Queued(Task("save", id, "", "", ""))
  {
    assert Plain("action") && Plain("save") && Plain("id");
    TwoReadBack(("action", "save"), ("id", id), scan);
    SaveObjectTask(id);
  }

  /** The object a save command parses to becomes a save task for its id. */
  lemma SaveObjectTask(id: string)
    ensures ToTask(JObject(map["action" := JString("save"), "id" := JString(id)])) == Some(Task("save", id, "", "", ""))
  {
    var v := JObject(map["action" := JString("save"), "id" := JString(id)]);
    assert Str(Member(v, "action")) == "save" && Str(Member(v, "id")) == id;
  }
}
