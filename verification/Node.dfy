/** The node as a transition system: the dispatcher, the log queue, the log worker, the
    rotation worker and the clock, interleaved in any order, over any number of crashes and
    restarts. Each step is one atomic action of one thread. */
module Node {
  import opened BloomFilter
  import Decimal
  import EngineAnswers
  import opened EngineHistory
  import opened EngineSpec
  import opened LogLine
  import opened Rebuild
  import opened Scheduler
  import opened Wrappers

  const LOG_QUEUE_SIZE: nat := 4096

  datatype Dispatcher = Free | Logging(line: string) | Hung

  // The rotation worker: about to wait, waiting since some instant for some time, or out of
  // its wait by timeout and about to rotate.
  datatype Worker = Starting | Waiting(since: int, length: nat) | Expired

  datatype Taken = Taken(record: Record, at: int)

  datatype Entry = Entry(line: string, hour: int)

  // What became of a revocation taken from the master, once it is settled.
  datatype Fate = InFile | Lost

  // History, which no step consults and which is only added to, but for the two last fields:
  // the revocations taken from the master; the fates of the first of them, the others being
  // on their way to a file; the lines written to files; the newest hour already out of
  // retention; and what happened to the row of filters since it was last rebuilt.
  datatype Past = Past(taken: seq<Taken>, fates: seq<Fate>, written: seq<Entry>, cutoff: int, ops: seq<Op>)

  datatype Node = Node(
    now: int,
    state: NodeState,
    dispatcher: Dispatcher,
    queue: seq<string>,    // logQueue
    held: Option<string>,  // taken from the queue by logWorker and not yet in a file
    worker: Worker,
    dead: bool,
    past: Past)

  // A node that was never started.
  function Installed(now: int): Node
  {
    Node(now, NodeState("single_node", EngineState(Params(0, 0, 0, 0), [], map[])),
         Free, [], None, Starting, true, Past([], [], [], Horizon(now), []))
  }

  datatype Event =
    | Tick(seconds: nat)
    | Restart(p: Params)
    | Message(event: string, data: Data)
    | HandOver        // logRevoke's enqueue goes through
    | LogTake
    | LogWrite
    | WaitBegins
    | WaitEndsEarly   // notified, or woken for no reason
    | WaitExpires
    | RotateNow

  // A live node always has Serving; it is asked for here so that Dispatch is defined.
  ghost predicate Enabled(n: Node, e: Event)
  {
    match e
    case Tick(_) => true
    case Restart(_) => true
    case Message(_, _) => !n.dead && n.dispatcher == Free && Serving(n.state.engine)
    case HandOver => !n.dead && n.dispatcher.Logging? && |n.queue| < LOG_QUEUE_SIZE
    case LogTake => !n.dead && n.held == None && n.queue != []
    case LogWrite => !n.dead && n.held.Some?
    case WaitBegins => !n.dead && n.worker == Starting
    case WaitEndsEarly => !n.dead && n.worker.Waiting?
    case WaitExpires => !n.dead && n.worker.Waiting? && n.worker.since + n.worker.length <= n.now
    case RotateNow => !n.dead && n.worker == Expired
  }

  // A crash or a shutdown, and engine.init. What had not reached a file is lost.
  ghost function Started(h: Hash, n: Node, p: Params): Node
  {
    var e := n.state.engine;
    var (engine, outcome) :=
      if p.maxLife == 0 || p.interval == 0 || p.size == 0 || p.hashNum == 0 then (e, Died)
      else Adjust(h, e.(filters := []), p, n.now);
    var past := n.past.(fates := n.past.fates + seq(|InFlight(n.past)|, _ => Lost));
    Node(n.now, NodeState("single_node", engine), Free, [], None, Starting, outcome != Done,
         match outcome
         case Done => past.(cutoff := Horizon(n.now), ops := Replay(RetainedLines(e.dir, n.now), n.now))
         case Died => past
         case DiedReading => past.(cutoff := Horizon(n.now)))
  }

  ghost function Received(h: Hash, n: Node, event: string, data: Data): Node
    requires Serving(n.state.engine)
  {
    var (state, reaction) := Dispatch(h, n.state, event, data, n.now);
    var m := n.(state := state);
    match reaction
    case Continues => m
    case Logs(r) =>
      m.(dispatcher := Logging(Line(r)),
         past := n.past.(taken := n.past.taken + [Taken(r, n.now)],
                         ops := n.past.ops + [Write(r.token, r.exp, n.now)]))
    case Adjusted(replied) =>
      m.(dead := !replied,
         worker := if n.worker.Waiting? then Starting else n.worker,
         past := n.past.(cutoff := Horizon(n.now),
                         ops := Replay(RetainedLines(n.state.engine.dir, n.now), n.now)))
    case Hangs => m.(dispatcher := Hung)
    case Dies => m.(dead := true)
    case DiesReading => m.(dead := true, past := n.past.(cutoff := Horizon(n.now)))
  }

  ghost function Written(n: Node): Node
    requires n.held.Some?
  {
    var hour := HourOf(n.now);
    n.(held := None,
       state := n.state.(engine := n.state.engine.(dir := AppendLine(n.state.engine.dir, hour, n.held.value))),
       past := n.past.(written := n.past.written + [Entry(n.held.value, hour)],
                       fates := n.past.fates + [InFile]))
  }

  // erase on an empty row is undefined, and emplace_back of a refused filter throws.
  ghost function Rotated(n: Node): Node
  {
    var e := n.state.engine;
    if e.filters == [] || !AcceptsSize(e.params.size) || e.params.hashNum == 0 then n.(dead := true)
    else n.(worker := Starting,
            state := n.state.(engine := e.(filters := Rotate(e.params, e.filters))),
            past := n.past.(ops := n.past.ops + [Rotation(n.now)]))
  }

  ghost function Step(h: Hash, n: Node, e: Event): Node
    requires Enabled(n, e)
  {
    match e
    case Tick(seconds) => n.(now := n.now + seconds)
    case Restart(p) => Started(h, n, p)
    case Message(event, data) => Received(h, n, event, data)
    case HandOver => n.(queue := n.queue + [n.dispatcher.line], dispatcher := Free)
    case LogTake => n.(held := Some(n.queue[0]), queue := n.queue[1..])
    case LogWrite => Written(n)
    case WaitBegins => n.(worker := Waiting(n.now, n.state.engine.params.interval))
    case WaitEndsEarly => n.(worker := Starting)
    case WaitExpires => n.(worker := Expired)
    case RotateNow => Rotated(n)
  }

  // Every list of events is a run: an event that is not enabled does nothing.
  ghost function Run(h: Hash, n: Node, events: seq<Event>): Node
  {
    if events == [] then n
    else
      var before := Run(h, n, events[..|events| - 1]);
      var e := events[|events| - 1];
      if Enabled(before, e) then Step(h, before, e) else before
  }

  // The log: what the invariant says of it.

  function TakenLines(taken: seq<Taken>): seq<string>
  {
    seq(|taken|, i requires 0 <= i < |taken| => Line(taken[i].record))
  }

  function EntryLines(written: seq<Entry>): seq<string>
  {
    seq(|written|, i requires 0 <= i < |written| => written[i].line)
  }

  // The revocations with the given fate, in order of arrival.
  function WithFate(taken: seq<Taken>, fates: seq<Fate>, fate: Fate): seq<Taken>
    requires |fates| <= |taken|
  {
    if fates == [] then []
    else
      var i := |fates| - 1;
      WithFate(taken, fates[..i], fate) + (if fates[i] == fate then [taken[i]] else [])
  }

  // The revocations whose fate is not settled.
  function InFlight(past: Past): seq<Taken>
  {
    if |past.fates| <= |past.taken| then past.taken[|past.fates|..] else []
  }

  // The revocations that reached a file.
  function Filed(past: Past): seq<Taken>
  {
    if |past.fates| <= |past.taken| then WithFate(past.taken, past.fates, InFile) else []
  }

  // On the way to a file, oldest first.
  function Outstanding(n: Node): seq<string>
  {
    (if n.held.Some? then [n.held.value] else [])
    + n.queue
    + (if n.dispatcher.Logging? then [n.dispatcher.line] else [])
  }

  // The lines written in one hour, in order.
  function WrittenIn(written: seq<Entry>, hour: int): seq<string>
  {
    if written == [] then []
    else
      var last := written[|written| - 1];
      WrittenIn(written[..|written| - 1], hour) + (if last.hour == hour then [last.line] else [])
  }

  // Each revocation taken from the master is settled or not; those that reached a file are
  // the lines written, and those not settled are on their way, each in order of arrival.
  ghost predicate Conserved(n: Node)
  {
    && |n.past.fates| <= |n.past.taken|
    && TakenLines(Filed(n.past)) == EntryLines(n.past.written)
    && TakenLines(InFlight(n.past)) == Outstanding(n)
  }

  ghost predicate TakenOk(n: Node)
  {
    forall i :: 0 <= i < |n.past.taken| ==>
      Decimal.IsInt64(n.past.taken[i].record.exp) && n.past.taken[i].at <= n.now
  }

  ghost predicate EntriesOk(n: Node)
  {
    && |n.past.written| == |Filed(n.past)|
    && n.past.cutoff <= Horizon(n.now)
    && forall i :: 0 <= i < |n.past.written| ==>
         && n.past.written[i].hour % 3600 == 0
         && HourOf(Filed(n.past)[i].at) <= n.past.written[i].hour <= HourOf(n.now)
         && Filed(n.past)[i] in n.past.taken
  }

  // The directory holds the text of the lines of every hour still in retention.
  ghost predicate DirectoryOk(n: Node)
  {
    var dir := n.state.engine.dir;
    forall hour ::
      && (hour in dir <==> n.past.cutoff < hour && WrittenIn(n.past.written, hour) != [])
      && (hour in dir ==> dir[hour] == FileText(WrittenIn(n.past.written, hour)))
  }

  ghost predicate LogInv(n: Node)
  {
    Conserved(n) && TakenOk(n) && EntriesOk(n) && DirectoryOk(n)
  }

  // The row of filters is what its history makes of fresh filters.
  ghost predicate RowInv(h: Hash, n: Node)
  {
    var e := n.state.engine;
    && e.params.interval > 0 && NewFiltersAccepted(e.params) && Usable(Effective(e.params))
    && e.filters == RowAfter(h, Effective(e.params), n.past.ops)
  }

  // The worker rotates at most once an interval.
  ghost predicate WorkerInv(n: Node)
  {
    var interval := n.state.engine.params.interval;
    && EngineAnswers.Timed(n.past.ops, interval, n.now)
    && (n.worker.Waiting? ==> n.worker.length == interval && n.worker.since <= n.now)
    && forall i :: 0 <= i < |n.past.ops| && n.past.ops[i].Rotation? ==>
         && (n.worker.Waiting? ==> n.past.ops[i].at <= n.worker.since)
         && (n.worker == Expired ==> n.past.ops[i].at + interval <= n.now)
  }

  ghost predicate RoleInv(n: Node)
  {
    n.dispatcher != Hung ==> IsLocal(n.state.role)
  }

  ghost predicate Inv(h: Hash, n: Node)
  {
    LogInv(n) && (!n.dead ==> RowInv(h, n) && WorkerInv(n) && RoleInv(n))
  }
}
