/** Serving requests over a pipe (pipehttp/pipehttp.go) as a state machine. Requests are read one after
    another, answered concurrently, and each answer is written under one lock; a write may reach the
    stream in any number of pieces. */
module PipeServe {
  import opened Common
  import opened Frames

  /** How headers are written: a request header names its id, or does not decode;
      a response header carries the id of the request and a status, or cannot be encoded. */
  datatype Codec = Codec(decode: seq<byte> -> Option<nat>, marshal: (nat, nat) -> Option<seq<byte>>)

  /** Where one request's handler has got to; `pos` is when it got the lock. */
  datatype Phase =
    | Working
    | Ready(answer: Frame)
    | Writing(pos: nat)
    | Done(pos: nat)
    | Failed(pos: nat)
    | Unsent

  /** A handler that is through, one way or another. */
  predicate Over(p: Phase) { p.Done? || p.Failed? || p.Unsent? }

  predicate Begun(p: Phase) { p.Writing? || p.Done? || p.Failed? }

  datatype Task = Task(id: nat, phase: Phase)

  datatype Reading = Open | Ended(clean: bool)

  /** One answer that has been or is being written, and the request it answers. */
  datatype Entry = Entry(task: nat, answer: Frame)

  /** `log` lists the answers in the order their handlers got the lock, `left` is what the holder of the
      lock has still to write, and `broken` says some write failed. */
  datatype State = State(input: seq<byte>, reading: Reading, tasks: seq<Task>, lock: Option<nat>,
                         log: seq<Entry>, out: seq<byte>, left: seq<byte>, broken: bool, returned: bool)
  {
    function With(i: nat, p: Phase): State
      requires i < |tasks|
    {
      this.(tasks := tasks[i := Task(tasks[i].id, p)])
    }
  }

  function Init(input: seq<byte>): State {
    State(input, Open, [], None, [], [], [], false, false)
  }

  // ---- the steps ----

  datatype Step =
    | ReadOne
    | StopReading
    | Answer(i: nat, status: nat, body: seq<byte>)
    | NoHeader(i: nat, status: nat)
    | TakeLock(i: nat)
    | Emit(i: nat, n: nat)
    | Release(i: nat)
    | WriteFails(i: nat)
    | Return

  ghost predicate Next(c: Codec, s: State, t: State, step: Step) {
    match step
    case ReadOne =>
      // a whole frame with a header that decodes becomes a request being worked on
      s.reading == Open && ReadFrame(s.input).Got? && c.decode(ReadFrame(s.input).value.header).Some?
      && t == s.(input := ReadFrame(s.input).rest,
                 tasks := s.tasks + [Task(c.decode(ReadFrame(s.input).value.header).value, Working)])
    case StopReading =>
      // the end of the stream between frames is clean; anything else is an error
      s.reading == Open
      && (match ReadFrame(s.input)
          case Stopped(why) => t == s.(reading := Ended(why == CleanEnd))
          case Got(f, _) => c.decode(f.header).None? && t == s.(reading := Ended(false)))
    case Answer(i, status, body) =>
      i < |s.tasks| && s.tasks[i].phase.Working? && c.marshal(s.tasks[i].id, status).Some?
      && t == s.With(i, Ready(Frame(c.marshal(s.tasks[i].id, status).value, body)))
    case NoHeader(i, status) =>
      // a header that cannot be encoded is given up before the lock is asked for
      i < |s.tasks| && s.tasks[i].phase.Working? && c.marshal(s.tasks[i].id, status).None? && t == s.With(i, Unsent)
    case TakeLock(i) =>
      i < |s.tasks| && s.tasks[i].phase.Ready? && s.lock == None
      && t == s.With(i, Writing(|s.log|)).(lock := Some(i), log := s.log + [Entry(i, s.tasks[i].phase.answer)],
                                           left := Encoded(s.tasks[i].phase.answer))
    case Emit(i, n) =>
      s.lock == Some(i) && n <= |s.left| && t == s.(out := s.out + s.left[..n], left := s.left[n..])
    case Release(i) =>
      i < |s.tasks| && s.lock == Some(i) && s.left == [] && s.tasks[i].phase.Writing?
      && t == s.With(i, Done(s.tasks[i].phase.pos)).(lock := None)
    case WriteFails(i) =>
      i < |s.tasks| && s.lock == Some(i) && s.tasks[i].phase.Writing?
      && t == s.With(i, Failed(s.tasks[i].phase.pos)).(lock := None, left := [], broken := true)
    case Return =>
      // Serve waits for every handler it started
      s.reading != Open && (forall i :: 0 <= i < |s.tasks| ==> Over(s.tasks[i].phase))
      && t == s.(returned := true)
  }

  ghost predicate Steps(c: Codec, s: State, t: State) { exists step :: Next(c, s, t, step) }

  /** A run, from the start, of any number of steps in any interleaving. */
  ghost predicate Run(c: Codec, input: seq<byte>, ss: seq<State>) {
    ss != [] && ss[0] == Init(input) && forall k :: 0 < k < |ss| ==> Steps(c, ss[k - 1], ss[k])
  }

  // ---- what every step keeps ----

  /** The log and the phases agree: every answer is in the log once, where its handler says. */
  ghost predicate Logged(s: State) {
    && (forall i :: 0 <= i < |s.tasks| && Begun(s.tasks[i].phase) ==>
          s.tasks[i].phase.pos < |s.log| && s.log[s.tasks[i].phase.pos].task == i)
    && (forall k :: 0 <= k < |s.log| ==>
          s.log[k].task < |s.tasks| && Begun(s.tasks[s.log[k].task].phase) && s.tasks[s.log[k].task].phase.pos == k)
  }

  /** At most one handler is writing: the one with the lock, whose answer is the last in the log. */
  ghost predicate Locked(s: State) {
    && (forall i :: 0 <= i < |s.tasks| ==> (s.tasks[i].phase.Writing? <==> s.lock == Some(i)))
    && (s.lock.Some? ==>
          s.lock.value < |s.tasks| && s.log != [] && s.tasks[s.lock.value].phase == Writing(|s.log| - 1)
          && |s.left| <= |Encoded(s.log[|s.log| - 1].answer)|)
    && (s.lock.None? ==> s.left == [])
  }

  ghost predicate HeaderFor(c: Codec, id: nat, f: Frame) { exists status :: c.marshal(id, status) == Some(f.header) }

  ghost predicate Unencodable(c: Codec, id: nat) { exists status :: c.marshal(id, status).None? }

  /** Every answer is to the request it was started for, and one is given up only if its header cannot be encoded. */
  ghost predicate Addressed(c: Codec, s: State) {
    && (forall i :: 0 <= i < |s.tasks| && s.tasks[i].phase.Ready? ==> HeaderFor(c, s.tasks[i].id, s.tasks[i].phase.answer))
    && (forall k :: 0 <= k < |s.log| ==>
          s.log[k].task < |s.tasks| && HeaderFor(c, s.tasks[s.log[k].task].id, s.log[k].answer))
    && (forall i :: 0 <= i < |s.tasks| && s.tasks[i].phase.Unsent? ==> Unencodable(c, s.tasks[i].id))
  }

  ghost function Answers(log: seq<Entry>): seq<Frame> {
    seq(|log|, k requires 0 <= k < |log| => log[k].answer)
  }

  ghost predicate Written(s: State) {
    !s.broken ==> s.out + s.left == Stream(Answers(s.log)) && forall i :: 0 <= i < |s.tasks| ==> !s.tasks[i].phase.Failed?
  }

  /** The requests read so far are the first frames of the input, in order. */
  ghost predicate Consumed(c: Codec, input: seq<byte>, s: State, reqs: seq<Frame>) {
    && |reqs| == |s.tasks|
    && (forall i :: 0 <= i < |reqs| ==> c.decode(reqs[i].header) == Some(s.tasks[i].id))
    && ReadAll(input).0 == reqs + ReadAll(s.input).0 && ReadAll(input).1 == ReadAll(s.input).1
    && (s.reading == Ended(true) ==> ReadFrame(s.input) == Stopped(CleanEnd))
  }

  ghost predicate Waited(s: State) {
    s.returned ==> s.reading != Open && forall i :: 0 <= i < |s.tasks| ==> Over(s.tasks[i].phase)
  }

  ghost predicate Inv(c: Codec, input: seq<byte>, s: State) {
    && Logged(s) && Locked(s) && Addressed(c, s) && Written(s) && Waited(s)
    && exists reqs :: Consumed(c, input, s, reqs)
  }

  lemma InitInv(c: Codec, input: seq<byte>)
    ensures Inv(c, input, Init(input))
  {
    hide ReadAll, ReadFrame;
    assert [] + ReadAll(input).0 == ReadAll(input).0;
    assert Consumed(c, input, Init(input), []);
    assert Answers([]) == [];
  }

  lemma StepKeepsLogged(c: Codec, s: State, t: State, step: Step)
    requires Logged(s) && Locked(s) && Next(c, s, t, step)
    ensures Logged(t)
  {
    hide ReadFrame, Encoded, Locked, Logged;
    if step.TakeLock? {
      TakeLockKeepsLogged(s, t, step.i);
    } else if step.Release? || step.WriteFails? {
      EndingKeepsLogged(s, t, step.i);
    } else {
      OtherStepsKeepLogged(s, t);
    }
  }

  /** A writing handler ends, keeping its place in the log. */
  lemma EndingKeepsLogged(s: State, t: State, i: nat)
    requires Logged(s) && i < |s.tasks| && s.tasks[i].phase.Writing? && t.log == s.log
    requires t.tasks == s.With(i, Done(s.tasks[i].phase.pos)).tasks || t.tasks == s.With(i, Failed(s.tasks[i].phase.pos)).tasks
    ensures Logged(t)
  {
  }

  lemma OtherStepsKeepLogged(s: State, t: State)
    requires Logged(s) && t.log == s.log && |s.tasks| <= |t.tasks|
    requires forall i :: 0 <= i < |t.tasks| && Begun(t.tasks[i].phase) ==> i < |s.tasks| && s.tasks[i] == t.tasks[i]
    requires forall i :: 0 <= i < |s.tasks| && Begun(s.tasks[i].phase) ==> s.tasks[i] == t.tasks[i]
    ensures Logged(t)
  {
  }

  lemma TakeLockKeepsLogged(s: State, t: State, i: nat)
    requires Logged(s) && i < |s.tasks| && s.tasks[i].phase.Ready?
    requires t.tasks == s.With(i, Writing(|s.log|)).tasks && t.log == s.log + [Entry(i, s.tasks[i].phase.answer)]
    ensures Logged(t)
  {
  }

  lemma StepKeepsLocked(c: Codec, s: State, t: State, step: Step)
    requires Locked(s) && Next(c, s, t, step)
    ensures Locked(t)
  {
    hide ReadFrame, Encoded;
  }

  lemma StepKeepsAddressed(c: Codec, s: State, t: State, step: Step)
    requires Addressed(c, s) && Next(c, s, t, step)
    ensures Addressed(c, t)
  {
    hide ReadFrame, Encoded, HeaderFor, Unencodable;
    if step.Answer? { AnswerIsAddressed(c, s.tasks[step.i].id, step.status, step.body); }
    if step.NoHeader? { IsUnencodable(c, s.tasks[step.i].id, step.status); }
  }

  lemma AnswerIsAddressed(c: Codec, id: nat, status: nat, body: seq<byte>)
    requires c.marshal(id, status).Some?
    ensures HeaderFor(c, id, Frame(c.marshal(id, status).value, body))
  {
  }

  lemma IsUnencodable(c: Codec, id: nat, status: nat)
    requires c.marshal(id, status).None?
    ensures Unencodable(c, id)
  {
  }

  lemma StepKeepsWritten(c: Codec, s: State, t: State, step: Step)
    requires Locked(s) && Written(s) && Next(c, s, t, step)
    ensures Written(t)
  {
    hide ReadFrame, Encoded, Stream;
    if !t.broken {
      if step.TakeLock? {
        var f := s.tasks[step.i].phase.answer;
        assert Answers(t.log) == Answers(s.log) + [f];
        StreamExtends(Answers(s.log), f);
        assert s.out + [] == s.out;
      } else if step.Emit? {
        assert s.left == s.left[..step.n] + s.left[step.n..];
        assert s.out + s.left == (s.out + s.left[..step.n]) + s.left[step.n..];
      }
    }
  }

  lemma StreamExtends(fs: seq<Frame>, f: Frame)
    ensures Stream(fs + [f]) == Stream(fs) + Encoded(f)
  {
    assert (fs + [f])[..|fs|] == fs;
  }

  lemma StepKeepsConsumed(c: Codec, input: seq<byte>, s: State, t: State, step: Step, reqs: seq<Frame>)
    requires Consumed(c, input, s, reqs) && Next(c, s, t, step)
    ensures exists rs :: Consumed(c, input, t, rs)
  {
    hide Encoded, ReadFrame;
    if step.ReadOne? {
      var f := ReadFrame(s.input).value;
      assert reqs + ([f] + ReadAll(t.input).0) == (reqs + [f]) + ReadAll(t.input).0;
      assert Consumed(c, input, t, reqs + [f]);
    } else {
      hide ReadAll;
      assert Consumed(c, input, t, reqs);
    }
  }

  lemma StepKeepsInv(c: Codec, input: seq<byte>, s: State, t: State)
    requires Inv(c, input, s) && Steps(c, s, t)
    ensures Inv(c, input, t)
  {
    hide Logged, Locked, Addressed, Written, Consumed, Encoded, ReadFrame;
    var step :| Next(c, s, t, step);
    StepKeepsLogged(c, s, t, step);
    StepKeepsLocked(c, s, t, step);
    StepKeepsAddressed(c, s, t, step);
    StepKeepsWritten(c, s, t, step);
    var reqs :| Consumed(c, input, s, reqs);
    StepKeepsConsumed(c, input, s, t, step, reqs);
    assert Waited(t) by { StepKeepsWaited(c, s, t, step); }
  }

  lemma StepKeepsWaited(c: Codec, s: State, t: State, step: Step)
    requires Locked(s) && Waited(s) && Next(c, s, t, step)
    ensures Waited(t)
  {
    hide Encoded, ReadFrame;
  }

  lemma {:induction false} RunKeepsInv(c: Codec, input: seq<byte>, ss: seq<State>, k: nat)
    requires Run(c, input, ss) && k < |ss|
    ensures Inv(c, input, ss[k])
  {
    hide Inv, Steps;
    if k == 0 {
      InitInv(c, input);
    } else {
      RunKeepsInv(c, input, ss, k - 1);
      StepKeepsInv(c, input, ss[k - 1], ss[k]);
    }
  }

  // ---- the promises ----

  /** The answers fit the bound the other end reads with. */
  ghost predicate AllFit(log: seq<Entry>) { forall k :: 0 <= k < |log| ==> log[k].answer.Fits() }

  /** While `left` of the last frame is still to be written, a reader gets every frame before it whole. */
  lemma PartlyWritten(fs: seq<Frame>, out: seq<byte>, left: seq<byte>) returns (n: nat)
    requires fs != [] && out + left == Stream(fs) && |left| <= |Encoded(fs[|fs| - 1])|
    requires forall i :: 0 <= i < |fs| ==> fs[i].Fits()
    ensures n <= |fs| <= n + 1 && ReadAll(out).0 == fs[..n]
  {
    hide ReadFrame, ReadAll, Encoded;
    var init, last := fs[..|fs| - 1], fs[|fs| - 1];
    assert fs == init + [last];
    StreamExtends(init, last);
    assert Stream(fs)[..|out|] == out;
    n := ReadPrefix(fs, |out|);
    if n < |init| {
      hide Stream;
      assert fs[..n + 1] == init[..n + 1];
      StreamGrows(init, n);
    }
  }

  /** Whatever the interleaving, the stream never mixes two answers: a reader gets exactly the answers
      written so far, whole and in order, short of at most the one being written; and when nobody
      holds the lock, exactly all of them and a clean end. */
  lemma StreamIsWholeAnswers(c: Codec, input: seq<byte>, ss: seq<State>, k: nat) returns (n: nat)
    requires Run(c, input, ss) && k < |ss| && !ss[k].broken && AllFit(ss[k].log)
    ensures var s := ss[k];
      n <= |s.log| <= n + (if s.lock == None then 0 else 1) && ReadAll(s.out).0 == Answers(s.log[..n])
      && (s.lock == None ==> ReadAll(s.out) == (Answers(s.log), CleanEnd))
  {
    RunKeepsInv(c, input, ss, k);
    n := WholeAnswers(c, input, ss[k]);
  }

  lemma WholeAnswers(c: Codec, input: seq<byte>, s: State) returns (n: nat)
    requires Inv(c, input, s) && !s.broken && AllFit(s.log)
    ensures n <= |s.log| <= n + (if s.lock == None then 0 else 1) && ReadAll(s.out).0 == Answers(s.log[..n])
    ensures s.lock == None ==> ReadAll(s.out) == (Answers(s.log), CleanEnd)
  {
    hide ReadFrame, ReadAll, Encoded, Stream, Logged, Addressed, Consumed, Waited;
    var all := Answers(s.log);
    if s.lock == None {
      assert s.out + [] == s.out;
      StreamRoundTrip(all);
      n := |s.log|;
      assert s.log[..n] == s.log;
    } else {
      n := PartlyWritten(all, s.out, s.left);
      assert all[..n] == Answers(s.log[..n]);
    }
  }

  /** Each request is answered at most once, and what is written as an answer carries that request's id. */
  lemma AnsweredAtMostOnce(c: Codec, input: seq<byte>, ss: seq<State>, k: nat)
    requires Run(c, input, ss) && k < |ss|
    ensures var s := ss[k];
      (forall i, j :: 0 <= i < |s.log| && 0 <= j < |s.log| && s.log[i].task == s.log[j].task ==> i == j)
      && forall i :: 0 <= i < |s.log| ==>
           s.log[i].task < |s.tasks| && HeaderFor(c, s.tasks[s.log[i].task].id, s.log[i].answer)
  {
    RunKeepsInv(c, input, ss, k);
    hide Run, Locked, Consumed, Written, Waited, HeaderFor;
  }

  /** By the time Serve returns, if no write failed, every request read has been answered exactly once, but those whose
      answer had a header that cannot be encoded, and the stream reads back as exactly the answers; and a clean return
      means the input was whole frames, each of them one of those requests. */
  lemma AllAnsweredOnReturn(c: Codec, input: seq<byte>, ss: seq<State>, k: nat)
    requires Run(c, input, ss) && k < |ss| && ss[k].returned && !ss[k].broken
    ensures var s := ss[k];
      (forall i :: 0 <= i < |s.tasks| ==>
         if s.tasks[i].phase.Unsent? then Unencodable(c, s.tasks[i].id)
         else s.tasks[i].phase.Done? && s.tasks[i].phase.pos < |s.log| && s.log[s.tasks[i].phase.pos].task == i)
      && ((forall id :: !Unencodable(c, id)) ==> |s.log| == |s.tasks|)
      && (AllFit(s.log) ==> ReadAll(s.out) == (Answers(s.log), CleanEnd))
      && (s.reading == Ended(true) ==>
            ReadAll(input).1 == CleanEnd && |ReadAll(input).0| == |s.tasks|
            && forall i :: 0 <= i < |s.tasks| ==> c.decode(ReadAll(input).0[i].header) == Some(s.tasks[i].id))
  {
    RunKeepsInv(c, input, ss, k);
    var s := ss[k];
    hide ReadAll, ReadFrame, Encoded, Stream, Answers, Run, Inv, Consumed, Unencodable, HeaderFor;
    AllDoneFreesLock(s);
    if forall id :: !Unencodable(c, id) { EveryTaskLogged(s); }
    if AllFit(s.log) { var _ := StreamIsWholeAnswers(c, input, ss, k); }
    if s.reading == Ended(true) { CleanReturn(c, input, s); }
  }

  lemma AllDoneFreesLock(s: State)
    requires Locked(s) && forall i :: 0 <= i < |s.tasks| ==> Over(s.tasks[i].phase)
    ensures s.lock == None
  {
  }

  lemma CleanReturn(c: Codec, input: seq<byte>, s: State)
    requires Inv(c, input, s) && s.reading == Ended(true)
    ensures ReadAll(input).1 == CleanEnd && |ReadAll(input).0| == |s.tasks|
    ensures forall i :: 0 <= i < |s.tasks| ==> c.decode(ReadAll(input).0[i].header) == Some(s.tasks[i].id)
  {
    hide Logged, Locked, Addressed, Written, Waited, ReadFrame;
    var reqs :| Consumed(c, input, s, reqs);
    assert ReadAll(s.input) == ([], CleanEnd);
    assert reqs + [] == reqs;
  }

  lemma EveryTaskLogged(s: State)
    requires Logged(s) && forall i :: 0 <= i < |s.tasks| ==> Begun(s.tasks[i].phase)
    ensures |s.log| == |s.tasks|
  {
    var f := seq(|s.tasks|, i requires 0 <= i < |s.tasks| => s.tasks[i].phase.pos);
    var g := seq(|s.log|, k requires 0 <= k < |s.log| => s.log[k].task);
    forall i, j | 0 <= i < j < |f| ensures f[i] != f[j] { assert g[f[i]] == i && g[f[j]] == j; }
    forall i, j | 0 <= i < j < |g| ensures g[i] != g[j] { assert f[g[i]] == i && f[g[j]] == j; }
    Pigeonholes(f, |g|);
    Pigeonholes(g, |f|);
  }

  /** No more different numbers than there are numbers. */
  lemma {:induction false} Pigeonholes(f: seq<nat>, m: nat)
    requires (forall i, j :: 0 <= i < j < |f| ==> f[i] != f[j]) && forall i :: 0 <= i < |f| ==> f[i] < m
    ensures |f| <= m
    decreases m
  {
    if f == [] {
      return;
    }
    assert f[0] < m;
    if exists p :: 0 <= p < |f| && f[p] == m - 1 {
      var p :| 0 <= p < |f| && f[p] == m - 1;
      Pigeonholes(f[..p] + f[p + 1..], m - 1);
    } else {
      Pigeonholes(f, m - 1);
    }
  }

  // ---- nothing gets stuck ----

  /** How much a handler has still to do. */
  ghost function ToDo(p: Phase): nat {
    match p
    case Working => 3
    case Ready(_) => 2
    case Writing(_) => 1
    case _ => 0
  }

  ghost function AllToDo(tasks: seq<Task>): nat {
    if tasks == [] then 0 else AllToDo(tasks[..|tasks| - 1]) + ToDo(tasks[|tasks| - 1].phase)
  }

  lemma {:induction false} OneChanged(tasks: seq<Task>, i: nat, t: Task)
    requires i < |tasks|
    ensures AllToDo(tasks[i := t]) == AllToDo(tasks) - ToDo(tasks[i].phase) + ToDo(t.phase)
  {
    var n := |tasks| - 1;
    if i < n {
      OneChanged(tasks[..n], i, t);
      assert tasks[i := t][..n] == tasks[..n][i := t];
    } else {
      assert tasks[i := t][..n] == tasks[..n];
    }
  }

  /** What is still to be read. */
  ghost function ToRead(s: State): nat { if s.reading == Open then |s.input| + 1 else 0 }

  /** Nearer the end: less to read, or else less to do, or else less to write. */
  ghost predicate Nearer(t: State, s: State) {
    || ToRead(t) < ToRead(s)
    || (ToRead(t) == ToRead(s) && AllToDo(t.tasks) < AllToDo(s.tasks))
    || (ToRead(t) == ToRead(s) && AllToDo(t.tasks) == AllToDo(s.tasks) && |t.left| < |s.left|)
  }

  /** Until it returns some step can always be taken, without any write failing: the reader's, or else the lock
      holder's, or else that of a handler with an answer, or without one yet; and it returns, or brings the end
      nearer. */
  lemma SomeStep(c: Codec, s: State) returns (t: State)
    requires Locked(s) && !s.returned
    ensures Steps(c, s, t) && t.broken == s.broken && (t.returned || Nearer(t, s))
  {
    hide Encoded, ReadFrame;
    if s.reading == Open {
      t := ReaderStep(c, s);
    } else if s.lock.Some? {
      t := HolderStep(c, s);
    } else if i: nat :| i < |s.tasks| && (s.tasks[i].phase.Ready? || s.tasks[i].phase.Working?) {
      t := HandlerStep(c, s, i);
    } else {
      t := s.(returned := true);
      forall i | 0 <= i < |s.tasks| ensures Over(s.tasks[i].phase) { assert !s.tasks[i].phase.Writing?; }
      assert Next(c, s, t, Return);
    }
  }

  lemma ReaderStep(c: Codec, s: State) returns (t: State)
    requires s.reading == Open
    ensures Steps(c, s, t) && t.broken == s.broken && Nearer(t, s)
  {
    match ReadFrame(s.input) {
      case Got(f, rest) =>
        if c.decode(f.header).Some? {
          t := s.(input := rest, tasks := s.tasks + [Task(c.decode(f.header).value, Working)]);
          assert Next(c, s, t, ReadOne);
        } else {
          t := s.(reading := Ended(false));
          assert Next(c, s, t, StopReading);
        }
      case Stopped(why) =>
        t := s.(reading := Ended(why == CleanEnd));
        assert Next(c, s, t, StopReading);
    }
  }

  lemma HolderStep(c: Codec, s: State) returns (t: State)
    requires Locked(s) && s.lock.Some?
    ensures Steps(c, s, t) && t.broken == s.broken && Nearer(t, s)
  {
    hide Encoded;
    var i := s.lock.value;
    if s.left != [] {
      t := s.(out := s.out + s.left[..|s.left|], left := s.left[|s.left|..]);
      assert Next(c, s, t, Emit(i, |s.left|));
    } else {
      t := s.With(i, Done(s.tasks[i].phase.pos)).(lock := None);
      OneChanged(s.tasks, i, t.tasks[i]);
      assert Next(c, s, t, Release(i));
    }
  }

  lemma HandlerStep(c: Codec, s: State, i: nat) returns (t: State)
    requires s.lock == None && i < |s.tasks| && (s.tasks[i].phase.Ready? || s.tasks[i].phase.Working?)
    ensures Steps(c, s, t) && t.broken == s.broken && Nearer(t, s)
  {
    hide Encoded;
    var id := s.tasks[i].id;
    if s.tasks[i].phase.Ready? {
      var f := s.tasks[i].phase.answer;
      t := s.With(i, Writing(|s.log|)).(lock := Some(i), log := s.log + [Entry(i, f)], left := Encoded(f));
      assert Next(c, s, t, TakeLock(i));
    } else if c.marshal(id, 200).Some? {
      t := s.With(i, Ready(Frame(c.marshal(id, 200).value, [])));
      assert Next(c, s, t, Answer(i, 200, []));
    } else {
      t := s.With(i, Unsent);
      assert Next(c, s, t, NoHeader(i, 200));
    }
    OneChanged(s.tasks, i, t.tasks[i]);
  }

  /** From wherever a run has got to, it can go on until Serve returns, with no write failing that has not already. */
  lemma {:induction false} CanGoOn(c: Codec, input: seq<byte>, ss: seq<State>) returns (more: seq<State>)
    requires Run(c, input, ss)
    ensures Run(c, input, more) && ss <= more && more[|more| - 1].returned
    ensures more[|more| - 1].broken == ss[|ss| - 1].broken
    decreases ToRead(ss[|ss| - 1]), AllToDo(ss[|ss| - 1].tasks), |ss[|ss| - 1].left|, !ss[|ss| - 1].returned
  {
    hide Steps, Inv;
    var s := ss[|ss| - 1];
    more := ss;
    if !s.returned {
      RunKeepsInv(c, input, ss, |ss| - 1);
      InvIsLocked(c, input, s);
      var t := SomeStep(c, s);
      if t.returned { more := ss + [t]; } else { more := CanGoOn(c, input, ss + [t]); }
    }
  }

  lemma InvIsLocked(c: Codec, input: seq<byte>, s: State)
    requires Inv(c, input, s)
    ensures Locked(s)
  {
  }

  /** Whatever it is sent, Serve can return with everything answered: no write need fail. */
  lemma CanReturn(c: Codec, input: seq<byte>) returns (ss: seq<State>)
    ensures Run(c, input, ss) && ss[|ss| - 1].returned && !ss[|ss| - 1].broken
  {
    hide Steps;
    ss := CanGoOn(c, input, [Init(input)]);
  }
}
