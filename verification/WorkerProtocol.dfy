/** The restore and capture protocols between a parent and its isolated worker, as one step system: either side may
    stop anywhere, and what travels between them as bulk data may arrive changed (src/wasix_worker.rs). */
module WorkerProtocol {
  import opened Bytes
  import opened Wrappers
  import opened Crypto
  import Framing

  const MAX_MODULE_BYTES: nat := 64 * 1024 * 1024
  const MAX_REQUEST_BYTES: nat := 64 * 1024
  const MODULE_MARKER: byte := 0x4d
  const CHECKPOINT_MARKER: byte := 0x43
  const EXECUTE: byte := 0x45

  /** A restore sends a module and a checkpoint journal; a capture sends a module and a request. */
  datatype Operation = Restore | Capture

  /** `Host.isolated` is the parent's judgement of reported isolation and `Host.validRequest` the worker's of a
      request. */
  datatype Host = Host(sha256: Bytes -> Digest, isolated: Bytes -> bool, validRequest: Bytes -> bool)

  datatype Identity = Identity(protocolVersion: nat, runtimeVersion: Bytes, cohort: Bytes, build: Bytes, processId: nat)

  /** What the parent prepared and expects. */
  datatype Job = Job(operation: Operation, placementConfigured: bool, worker: Identity, first: Bytes, second: Bytes)

  datatype Fingerprint = Fingerprint(length: nat, sha256: Bytes)

  function FingerprintOf(h: Host, content: Bytes): (f: Fingerprint)
  {
    Fingerprint(|content|, Hex(h.sha256(content)))
  }

  /** The same bytes, or two inputs that SHA-256 does not tell apart. */
  predicate SameBytes(h: Host, a: Bytes, b: Bytes)
  {
    a == b || Collision(h.sha256, a, b)
  }

  lemma FingerprintInjective(h: Host, a: Bytes, b: Bytes)
    requires FingerprintOf(h, a) == FingerprintOf(h, b)
    ensures SameBytes(h, a, b) && |a| == |b|
  {
    HexInjective(h.sha256(a), h.sha256(b));
  }

  /** Frames on the worker's standard output. */
  datatype Message =
    | Ready(identity: Identity, isolation: Bytes)
    | Acknowledgement(first: Fingerprint, second: Fingerprint)
    | Completion(exitCode: int, parts: seq<Fingerprint>)
    | Part(content: Bytes)

  /** Items on the control socket. */
  datatype Item =
    | Descriptor(marker: byte, content: Bytes, isSealed: bool)
    | Request(content: Bytes)
    | Octet(value: byte)

  /** What a finished guest leaves: standard output and error, preceded in a capture by the journal. */
  datatype Output = Output(exitCode: int, parts: seq<Bytes>)

  datatype Inputs = Inputs(first: Bytes, second: Bytes)

  datatype ParentPhase = Spawned | Placed | Validated | SentFirst | SentSecond | Acknowledged | Authorized | Shut | Done

  datatype WorkerPhase = Starting | Isolated | HasFirst | HasBoth | Acked | MayExecute | Executing | Ran

  /** A phase is never left except forwards; a side that stopped keeps the phase it reached. */
  datatype Parent = Parent(phase: ParentPhase, stopped: bool, seen: seq<Message>, result: Option<seq<Bytes>>)

  datatype Worker = Worker(phase: WorkerPhase, stopped: bool, received: nat, inputs: seq<Bytes>,
                           executed: Option<Inputs>, output: Option<Output>)

  /** `control` is all the parent has sent and `written` all the worker has written; what the other side has not read
      yet is in flight. */
  datatype State = State(parent: Parent, worker: Worker, control: seq<Item>, closed: bool, written: seq<Message>)

  const INITIAL: State :=
    State(Parent(Spawned, false, [], None), Worker(Starting, false, 0, [], None, None), [], false, [])

  datatype Step =
    | Place(accepted: bool)
    | ReadReady
    | SendFirst
    | SendSecond
    | ReadAcknowledgement
    | SendExecute
    | Shutdown
    | ReadOutput
    | Finish
    | StopParent
    | WriteReady(identity: Identity, isolation: Bytes)
    | ReceiveFirst
    | ReceiveSecond
    | WriteAcknowledgement
    | ReadExecute
    | ReadEnd
    | Run(output: Output)
    | WriteOutput
    | StopWorker
    | ChangeItem(index: nat, item: Item)
    | ChangePart(index: nat, content: Bytes)

  function Rank(phase: ParentPhase): (n: nat)
  {
    match phase
    case Spawned => 0 case Placed => 1 case Validated => 2 case SentFirst => 3 case SentSecond => 4
    case Acknowledged => 5 case Authorized => 6 case Shut => 7 case Done => 8
  }

  function WorkerRank(phase: WorkerPhase): (n: nat)
  {
    match phase
    case Starting => 0 case Isolated => 1 case HasFirst => 2 case HasBoth => 3
    case Acked => 4 case MayExecute => 5 case Executing => 6 case Ran => 7
  }

  // ---------------------------------------------------------------- what each side checks

  predicate ValidReady(h: Host, job: Job, m: Message)
  {
    m.Ready? && m.identity == job.worker && h.isolated(m.isolation)
  }

  function Acknowledges(h: Host, first: Bytes, second: Bytes): (m: Message)
  {
    Acknowledgement(FingerprintOf(h, first), FingerprintOf(h, second))
  }

  function SecondItem(job: Job): (item: Item)
  {
    if job.operation == Restore then Descriptor(CHECKPOINT_MARKER, job.second, true) else Request(job.second)
  }

  predicate AcceptsFirst(item: Item)
  {
    item.Descriptor? && item.marker == MODULE_MARKER && item.isSealed && 0 < |item.content| <= MAX_MODULE_BYTES
  }

  predicate AcceptsSecond(h: Host, operation: Operation, item: Item)
  {
    match operation
    case Restore =>
      && item.Descriptor? && item.marker == CHECKPOINT_MARKER && item.isSealed
      && 0 < |item.content| <= Framing.MAX_CHECKPOINT_BYTES
    case Capture => item.Request? && 0 < |item.content| <= MAX_REQUEST_BYTES && h.validRequest(item.content)
  }

  function PartCount(operation: Operation): (n: nat)
  {
    if operation == Restore then 2 else 3
  }

  /** Frames the parent reads in all: ready, acknowledgement, completion and the parts. */
  function FrameCount(operation: Operation): (n: nat)
  {
    3 + PartCount(operation)
  }

  function PartRule(operation: Operation, k: nat): (rule: Framing.Rule)
    requires 3 <= k < FrameCount(operation)
  {
    if operation == Restore then Framing.RESTORE_RULES[k] else Framing.CAPTURE_RULES[k]
  }

  /** The completion frame and the parts are read in turn and each must have the right kind and size. */
  predicate AcceptsOutput(operation: Operation, k: nat, m: Message)
    requires 2 <= k < FrameCount(operation)
  {
    if k == 2 then m.Completion? else m.Part? && Framing.Admits(PartRule(operation, k), m.content)
  }

  predicate ReadInFull(operation: Operation, seen: seq<Message>)
  {
    && |seen| == FrameCount(operation) && seen[2].Completion?
    && forall k :: 3 <= k < |seen| ==> seen[k].Part?
  }

  function Parts(operation: Operation, seen: seq<Message>): (parts: seq<Bytes>)
    requires ReadInFull(operation, seen)
    ensures |parts| == PartCount(operation)
  {
    if operation == Restore then [seen[3].content, seen[4].content]
    else [seen[3].content, seen[4].content, seen[5].content]
  }

  /** `validate` of a completion: exit code zero, and every part has its declared length and digest. */
  predicate Validates(h: Host, completion: Message, parts: seq<Bytes>)
  {
    && completion.Completion? && completion.exitCode == 0 && |completion.parts| == |parts|
    && forall i :: 0 <= i < |parts| ==> completion.parts[i] == FingerprintOf(h, parts[i])
  }

  function Fingerprints(h: Host, parts: seq<Bytes>): (f: seq<Fingerprint>)
    ensures |f| == |parts|
    ensures forall i :: 0 <= i < |parts| ==> f[i] == FingerprintOf(h, parts[i])
  {
    if parts == [] then [] else [FingerprintOf(h, parts[0])] + Fingerprints(h, parts[1..])
  }

  function OutputMessage(h: Host, output: Output, k: nat): (m: Message)
    requires 2 <= k < 3 + |output.parts|
  {
    if k == 2 then Completion(output.exitCode, Fingerprints(h, output.parts)) else Part(output.parts[k - 3])
  }

  // ---------------------------------------------------------------- steps

  predicate ParentEnabled(h: Host, job: Job, s: State, step: Step)
  {
    var p, unread := s.parent, |s.parent.seen| < |s.written|;
    !p.stopped &&
    match step
    case Place(accepted) => p.phase == Spawned && (accepted || job.placementConfigured)
    case ReadReady => p.phase == Placed && unread
    case SendFirst => p.phase == Validated
    case SendSecond => p.phase == SentFirst
    case ReadAcknowledgement => p.phase == SentSecond && unread
    case SendExecute => p.phase == Acknowledged
    case Shutdown => p.phase == Authorized
    case ReadOutput => p.phase == Shut && unread && |p.seen| < FrameCount(job.operation)
    case Finish => p.phase == Shut && |p.seen| == FrameCount(job.operation)
    case StopParent => true
    case _ => false
  }

  predicate WorkerEnabled(h: Host, job: Job, s: State, step: Step)
  {
    var w, pending := s.worker, s.worker.received < |s.control|;
    !w.stopped &&
    match step
    case WriteReady(_, _) => w.phase == Starting
    case ReceiveFirst => w.phase == Isolated && pending
    case ReceiveSecond => w.phase == HasFirst && pending
    case WriteAcknowledgement => w.phase == HasBoth && |w.inputs| == 2
    case ReadExecute => w.phase == Acked && pending
    case ReadEnd => w.phase == MayExecute && (pending || s.closed) && |w.inputs| == 2
    case Run(output) => w.phase == Executing && |output.parts| == PartCount(job.operation)
    case WriteOutput =>
      && w.phase == Ran && w.output.Some? && |w.output.value.parts| == PartCount(job.operation)
      && 2 <= |s.written| < FrameCount(job.operation)
    case StopWorker => true
    case _ => false
  }

  /** Bulk data in flight may change; marker octets and the two handshake frames do not. */
  predicate ChangeEnabled(s: State, step: Step)
  {
    match step
    case ChangeItem(i, item) => s.worker.received <= i < |s.control| && !s.control[i].Octet? && !item.Octet?
    case ChangePart(i, _) => |s.parent.seen| <= i < |s.written| && s.written[i].Part?
    case _ => false
  }

  predicate Enabled(h: Host, job: Job, s: State, step: Step)
  {
    ParentEnabled(h, job, s, step) || WorkerEnabled(h, job, s, step) || ChangeEnabled(s, step)
  }

  /** A parent that stops closes its end of the control socket. */
  function HaltParent(s: State): (r: State)
  {
    s.(parent := s.parent.(stopped := true), closed := true)
  }

  function HaltWorker(s: State): (r: State)
  {
    s.(worker := s.worker.(stopped := true))
  }

  function Goto(s: State, phase: ParentPhase): (r: State)
  {
    s.(parent := s.parent.(phase := phase))
  }

  function Send(s: State, item: Item, phase: ParentPhase): (r: State)
  {
    Goto(s, phase).(control := s.control + [item])
  }

  function Read(s: State, phase: ParentPhase): (r: State)
    requires |s.parent.seen| < |s.written|
  {
    s.(parent := s.parent.(phase := phase, seen := s.parent.seen + [s.written[|s.parent.seen|]]))
  }

  function ParentDo(h: Host, job: Job, s: State, step: Step): (r: State)
    requires ParentEnabled(h, job, s, step)
  {
    var p := s.parent;
    match step
    case Place(accepted) => if accepted then Goto(s, Placed) else HaltParent(s)
    case ReadReady => if ValidReady(h, job, s.written[|p.seen|]) then Read(s, Validated) else HaltParent(s)
    case SendFirst => Send(s, Descriptor(MODULE_MARKER, job.first, true), SentFirst)
    case SendSecond => Send(s, SecondItem(job), SentSecond)
    case ReadAcknowledgement =>
      if s.written[|p.seen|] == Acknowledges(h, job.first, job.second) then Read(s, Acknowledged) else HaltParent(s)
    case SendExecute => Send(s, Octet(EXECUTE), Authorized)
    case Shutdown => Goto(s, Shut).(closed := true)
    case ReadOutput =>
      if 2 <= |p.seen| && AcceptsOutput(job.operation, |p.seen|, s.written[|p.seen|]) then Read(s, Shut)
      else HaltParent(s)
    case Finish =>
      if ReadInFull(job.operation, p.seen) && Validates(h, p.seen[2], Parts(job.operation, p.seen)) &&
         |s.written| == |p.seen|
      then s.(parent := p.(phase := Done, result := Some(Parts(job.operation, p.seen))))
      else HaltParent(s)
    case _ => HaltParent(s)
  }

  function Receive(s: State, phase: WorkerPhase, content: Bytes): (r: State)
  {
    s.(worker := s.worker.(phase := phase, received := s.worker.received + 1, inputs := s.worker.inputs + [content]))
  }

  function Write(s: State, phase: WorkerPhase, m: Message): (r: State)
  {
    s.(worker := s.worker.(phase := phase), written := s.written + [m])
  }

  function WorkerDo(h: Host, job: Job, s: State, step: Step): (r: State)
    requires WorkerEnabled(h, job, s, step)
  {
    var w := s.worker;
    match step
    case WriteReady(identity, isolation) => Write(s, Isolated, Ready(identity, isolation))
    case ReceiveFirst =>
      var item := s.control[w.received];
      if AcceptsFirst(item) then Receive(s, HasFirst, item.content) else HaltWorker(s)
    case ReceiveSecond =>
      var item := s.control[w.received];
      if AcceptsSecond(h, job.operation, item) then Receive(s, HasBoth, item.content) else HaltWorker(s)
    case WriteAcknowledgement => Write(s, Acked, Acknowledges(h, w.inputs[0], w.inputs[1]))
    case ReadExecute =>
      if s.control[w.received] == Octet(EXECUTE)
      then s.(worker := w.(phase := MayExecute, received := w.received + 1)) else HaltWorker(s)
    case ReadEnd =>
      if w.received < |s.control| then HaltWorker(s)
      else s.(worker := w.(phase := Executing, executed := Some(Inputs(w.inputs[0], w.inputs[1]))))
    case Run(output) => s.(worker := w.(phase := Ran, output := Some(output)))
    case WriteOutput => Write(s, Ran, OutputMessage(h, w.output.value, |s.written|))
    case _ => HaltWorker(s)
  }

  function ChangeDo(s: State, step: Step): (r: State)
    requires ChangeEnabled(s, step)
  {
    match step
    case ChangeItem(i, item) => s.(control := s.control[i := item])
    case ChangePart(i, content) => s.(written := s.written[i := Part(content)])
  }

  function Do(h: Host, job: Job, s: State, step: Step): (r: State)
    requires Enabled(h, job, s, step)
  {
    if ParentEnabled(h, job, s, step) then ParentDo(h, job, s, step)
    else if WorkerEnabled(h, job, s, step) then WorkerDo(h, job, s, step)
    else ChangeDo(s, step)
  }

  ghost predicate Runs(h: Host, job: Job, s: State, steps: seq<Step>, r: State)
    decreases |steps|
  {
    if steps == [] then r == s
    else Enabled(h, job, s, steps[0]) && Runs(h, job, Do(h, job, s, steps[0]), steps[1..], r)
  }

  // ---------------------------------------------------------------- invariant

  /** What the parent has read agrees with its phase. */
  predicate ParentInv(h: Host, job: Job, s: State)
  {
    var p, rank := s.parent, Rank(s.parent.phase);
    && (if rank < 2 then p.seen == []
        else if rank < 5 then |p.seen| == 1
        else 2 <= |p.seen| <= FrameCount(job.operation))
    && (rank >= 2 ==> ValidReady(h, job, p.seen[0]))
    && (rank >= 5 ==> p.seen[1] == Acknowledges(h, job.first, job.second))
    && (rank < 7 ==> |p.seen| <= 2)
    && (p.result.Some? ==>
          && rank == 8 && ReadInFull(job.operation, p.seen) && p.result.value == Parts(job.operation, p.seen)
          && Validates(h, p.seen[2], p.result.value))
    && (forall k :: 2 <= k < |p.seen| ==> AcceptsOutput(job.operation, k, p.seen[k]))
    && p.seen <= s.written
  }

  /** What is on the control socket agrees with the parent's phase, and only the third item is an octet. */
  predicate ControlInv(s: State)
  {
    var rank := Rank(s.parent.phase);
    && |s.control| == (if rank < 3 then 0 else if rank < 4 then 1 else if rank < 6 then 2 else 3)
    && (forall i :: 0 <= i < |s.control| && i < 2 ==> !s.control[i].Octet?)
    && (|s.control| == 3 ==> s.control[2] == Octet(EXECUTE))
    && (rank >= 7 ==> s.closed)
    && (s.closed ==> s.parent.stopped || rank >= 7)
  }

  /** What the worker holds and has written agrees with its phase. */
  predicate WorkerInv(h: Host, job: Job, s: State)
  {
    var w, rank := s.worker, WorkerRank(s.worker.phase);
    && w.received == (if rank < 2 then 0 else if rank < 3 then 1 else if rank < 5 then 2 else 3)
    && w.received <= |s.control|
    && |w.inputs| == (if rank < 2 then 0 else if rank < 3 then 1 else 2)
    && (w.executed.Some? <==> rank >= 6)
    && (w.executed.Some? ==> w.executed.value == Inputs(w.inputs[0], w.inputs[1]) && s.closed)
    && (w.output.Some? <==> rank >= 7)
    && (w.output.Some? ==> |w.output.value.parts| == PartCount(job.operation))
    && (if rank < 1 then s.written == [] else if rank < 4 then |s.written| == 1
        else 2 <= |s.written| <= FrameCount(job.operation))
    && (rank >= 4 ==> s.written[1] == Acknowledges(h, w.inputs[0], w.inputs[1]))
    && (|s.written| > 2 ==> rank == 7 && s.written[2] == OutputMessage(h, w.output.value, 2))
  }

  /** What the worker took off the control socket passed its checks. */
  predicate InputsInv(h: Host, job: Job, s: State)
  {
    var w, control := s.worker, s.control;
    && w.received <= |control| && (|w.inputs| == if w.received < 2 then w.received else 2)
    && (w.received >= 1 ==> AcceptsFirst(control[0]) && w.inputs[0] == control[0].content)
    && (w.received >= 2 ==> AcceptsSecond(h, job.operation, control[1]) && w.inputs[1] == control[1].content)
  }

  predicate Inv(h: Host, job: Job, s: State)
  {
    ParentInv(h, job, s) && ControlInv(s) && WorkerInv(h, job, s) && InputsInv(h, job, s)
  }

  predicate Reads(step: Step)
  {
    step.ReadReady? || step.ReadAcknowledgement? || step.ReadOutput?
  }

  lemma ParentReads(h: Host, job: Job, s: State, step: Step)
    requires ParentInv(h, job, s) && ParentEnabled(h, job, s, step) && Reads(step)
    ensures ParentInv(h, job, ParentDo(h, job, s, step))
  {
    var p := s.parent;
    assert p.seen + [s.written[|p.seen|]] <= s.written;
  }

  lemma ParentMoves(h: Host, job: Job, s: State, step: Step)
    requires ParentInv(h, job, s) && ParentEnabled(h, job, s, step) && !Reads(step)
    ensures ParentInv(h, job, ParentDo(h, job, s, step))
  {
  }

  /** A step of the parent leaves the worker alone, only adds to the control stream and never reopens it. */
  lemma ParentFrame(h: Host, job: Job, s: State, step: Step)
    requires ParentEnabled(h, job, s, step)
    ensures var r := ParentDo(h, job, s, step);
      r.worker == s.worker && r.written == s.written && s.control <= r.control && (s.closed ==> r.closed)
  {
  }

  lemma ParentKeepsControl(h: Host, job: Job, s: State, step: Step)
    requires ControlInv(s) && ParentEnabled(h, job, s, step)
    ensures ControlInv(ParentDo(h, job, s, step))
  {
  }

  lemma InvParent(h: Host, job: Job, s: State, step: Step)
    requires Inv(h, job, s) && ParentEnabled(h, job, s, step)
    ensures Inv(h, job, ParentDo(h, job, s, step))
  {
    if Reads(step) { ParentReads(h, job, s, step); } else { ParentMoves(h, job, s, step); }
    ParentKeepsControl(h, job, s, step);
    ParentFrame(h, job, s, step);
  }

  /** A step of the worker leaves the parent and the control stream alone and only adds to its own output. */
  lemma WorkerFrame(h: Host, job: Job, s: State, step: Step)
    requires WorkerEnabled(h, job, s, step)
    ensures var r := WorkerDo(h, job, s, step);
      r.parent == s.parent && r.control == s.control && r.closed == s.closed && s.written <= r.written
  {
  }

  predicate Writes(step: Step)
  {
    step.WriteReady? || step.WriteAcknowledgement? || step.WriteOutput?
  }

  lemma WorkerWrites(h: Host, job: Job, s: State, step: Step)
    requires WorkerInv(h, job, s) && WorkerEnabled(h, job, s, step) && Writes(step)
    ensures WorkerInv(h, job, WorkerDo(h, job, s, step))
  {
  }

  lemma WorkerMoves(h: Host, job: Job, s: State, step: Step)
    requires WorkerInv(h, job, s) && ControlInv(s) && WorkerEnabled(h, job, s, step) && !Writes(step)
    ensures WorkerInv(h, job, WorkerDo(h, job, s, step))
  {
  }

  lemma WorkerTakes(h: Host, job: Job, s: State, step: Step)
    requires WorkerInv(h, job, s) && InputsInv(h, job, s) && WorkerEnabled(h, job, s, step)
    ensures InputsInv(h, job, WorkerDo(h, job, s, step))
  {
  }

  lemma InvWorker(h: Host, job: Job, s: State, step: Step)
    requires Inv(h, job, s) && WorkerEnabled(h, job, s, step)
    ensures Inv(h, job, WorkerDo(h, job, s, step))
  {
    WorkerFrame(h, job, s, step);
    WorkerTakes(h, job, s, step);
    if Writes(step) { WorkerWrites(h, job, s, step); } else { WorkerMoves(h, job, s, step); }
  }

  lemma InvChange(h: Host, job: Job, s: State, step: Step)
    requires Inv(h, job, s) && ChangeEnabled(s, step)
    ensures Inv(h, job, ChangeDo(s, step))
  {
  }

  lemma {:induction false} RunKeepsInv(h: Host, job: Job, s: State, steps: seq<Step>, r: State)
    requires Inv(h, job, s) && Runs(h, job, s, steps, r)
    ensures Inv(h, job, r)
    decreases |steps|
  {
    if steps != [] {
      var step := steps[0];
      if ParentEnabled(h, job, s, step) { InvParent(h, job, s, step); }
      else if WorkerEnabled(h, job, s, step) { InvWorker(h, job, s, step); }
      else { InvChange(h, job, s, step); }
      RunKeepsInv(h, job, Do(h, job, s, step), steps[1..], r);
    }
  }

  // ---------------------------------------------------------------- main results

  /** The parent gets past its first phase only if placement accepted the process. */
  lemma {:induction false} PlacedBySteps(h: Host, job: Job, s: State, steps: seq<Step>, r: State)
    requires Runs(h, job, s, steps, r) && s.parent.phase == Spawned && r.parent.phase != Spawned
    ensures Place(true) in steps
    decreases |steps|
  {
    if steps[0] != Place(true) {
      PlacedBySteps(h, job, Do(h, job, s, steps[0]), steps[1..], r);
    }
  }

  /** Each side's reading of what the other sent. */
  predicate Handshake(h: Host, job: Job, s: State)
  {
    && |s.parent.seen| >= 2
    && s.parent.seen[0].Ready? && s.parent.seen[0].identity == job.worker && h.isolated(s.parent.seen[0].isolation)
    && s.parent.seen[1] ==
         Acknowledgement(Fingerprint(|job.first|, Hex(h.sha256(job.first))),
                         Fingerprint(|job.second|, Hex(h.sha256(job.second))))
    && |s.control| == s.worker.received == 3 && s.control[2] == Octet(EXECUTE) && s.closed
  }

  /** Both inputs of the guest arrived whole, in their order, sealed where they are descriptors, and within the limits
      of the operation. */
  predicate Admitted(h: Host, job: Job, control: seq<Item>, inputs: Inputs)
  {
    && |control| >= 2
    && control[0] == Descriptor(MODULE_MARKER, inputs.first, true) && 0 < |inputs.first| <= MAX_MODULE_BYTES
    && control[1] == (if job.operation == Restore then Descriptor(CHECKPOINT_MARKER, inputs.second, true)
                      else Request(inputs.second))
    && 0 < |inputs.second| <= (if job.operation == Restore then Framing.MAX_CHECKPOINT_BYTES else MAX_REQUEST_BYTES)
    && (job.operation == Capture ==> h.validRequest(inputs.second))
  }

  /** The worker executes only after placement passed, the ready frame named the expected worker and an isolation the
      parent accepts, every acknowledged length and digest matched, and the authorization and the end of the stream
      arrived; what it executes is byte for byte what the parent prepared, unless the run exhibits a collision of
      SHA-256. */
  lemma ExecutesOnlyPrepared(h: Host, job: Job, steps: seq<Step>, s: State)
    requires Runs(h, job, INITIAL, steps, s) && s.worker.executed.Some?
    ensures SameBytes(h, s.worker.executed.value.first, job.first)
    ensures SameBytes(h, s.worker.executed.value.second, job.second)
    ensures Rank(s.parent.phase) >= Rank(Authorized) && Handshake(h, job, s)
    ensures Admitted(h, job, s.control, s.worker.executed.value)
    ensures Place(true) in steps
  {
    RunKeepsInv(h, job, INITIAL, steps, s);
    PlacedBySteps(h, job, INITIAL, steps, s);
    assert s.written[1] == s.parent.seen[1];
    FingerprintInjective(h, s.worker.inputs[0], job.first);
    FingerprintInjective(h, s.worker.inputs[1], job.second);
  }

  /** A result within the sizes the parent reads: standard output and error, preceded in a capture by a journal. */
  predicate Bounded(operation: Operation, result: seq<Bytes>)
  {
    && |result| == (if operation == Restore then 2 else 3)
    && |result[|result| - 1]| <= Framing.MAX_OUTPUT_BYTES && |result[|result| - 2]| <= Framing.MAX_OUTPUT_BYTES
    && (operation == Capture ==> 0 < |result[0]| <= Framing.MAX_CHECKPOINT_BYTES)
  }

  lemma ResultBounded(h: Host, job: Job, s: State)
    requires ParentInv(h, job, s) && s.parent.result.Some?
    ensures Bounded(job.operation, s.parent.result.value)
  {
    assert AcceptsOutput(job.operation, 3, s.parent.seen[3]) && AcceptsOutput(job.operation, 4, s.parent.seen[4]);
    if job.operation == Capture { assert AcceptsOutput(job.operation, 5, s.parent.seen[5]); }
  }

  /** A result the parent reports is, byte for byte and with the same exception, what a guest that exited with zero
      produced from the prepared inputs; every frame was read in its place and nothing followed. */
  lemma ResultIsWorkersOutput(h: Host, job: Job, steps: seq<Step>, s: State)
    requires Runs(h, job, INITIAL, steps, s) && s.parent.result.Some?
    ensures s.worker.executed.Some? && s.worker.output.Some? && s.worker.output.value.exitCode == 0
    ensures SameBytes(h, s.worker.executed.value.first, job.first)
    ensures SameBytes(h, s.worker.executed.value.second, job.second)
    ensures Handshake(h, job, s) && Admitted(h, job, s.control, s.worker.executed.value)
    ensures s.written == s.parent.seen && Bounded(job.operation, s.parent.result.value)
    ensures var parts, result := s.worker.output.value.parts, s.parent.result.value;
      |parts| == |result| && forall i :: 0 <= i < |parts| ==> SameBytes(h, parts[i], result[i])
  {
    RunKeepsInv(h, job, INITIAL, steps, s);
    assert s.parent.seen[2] == s.written[2];
    ExecutesOnlyPrepared(h, job, steps, s);
    ResultBounded(h, job, s);
    var parts, result := s.worker.output.value.parts, s.parent.result.value;
    forall i | 0 <= i < |result|
      ensures SameBytes(h, parts[i], result[i])
    {
      FingerprintInjective(h, parts[i], result[i]);
    }
  }

  // ---------------------------------------------------------------- nothing stands in the way of an honest run

  lemma {:induction false} RunsExtend(h: Host, job: Job, s: State, steps: seq<Step>, r: State, step: Step)
    requires Runs(h, job, s, steps, r) && Enabled(h, job, r, step)
    ensures Runs(h, job, s, steps + [step], Do(h, job, r, step))
    decreases |steps|
  {
    if steps == [] {
      assert Runs(h, job, Do(h, job, r, step), [], Do(h, job, r, step));
      assert [step][1..] == [];
    } else {
      RunsExtend(h, job, Do(h, job, s, steps[0]), steps[1..], r, step);
      assert (steps + [step])[1..] == steps[1..] + [step];
    }
  }

  lemma ParentThen(h: Host, job: Job, steps: seq<Step>, s: State, step: Step) returns (more: seq<Step>, r: State)
    requires Runs(h, job, INITIAL, steps, s) && ParentEnabled(h, job, s, step)
    ensures Runs(h, job, INITIAL, more, r) && r == ParentDo(h, job, s, step)
  {
    RunsExtend(h, job, INITIAL, steps, s, step);
    more, r := steps + [step], Do(h, job, s, step);
  }

  lemma WorkerThen(h: Host, job: Job, steps: seq<Step>, s: State, step: Step) returns (more: seq<Step>, r: State)
    requires Runs(h, job, INITIAL, steps, s) && WorkerEnabled(h, job, s, step)
    ensures Runs(h, job, INITIAL, more, r) && r == WorkerDo(h, job, s, step)
  {
    RunsExtend(h, job, INITIAL, steps, s, step);
    more, r := steps + [step], Do(h, job, s, step);
  }

  /** Inputs that each side's limits admit. */
  predicate Acceptable(h: Host, job: Job)
  {
    AcceptsFirst(Descriptor(MODULE_MARKER, job.first, true)) && AcceptsSecond(h, job.operation, SecondItem(job))
  }

  /** A state in which the parent has read all that was written and nobody has stopped. */
  function Snapshot(parent: ParentPhase, worker: WorkerPhase, received: nat, inputs: seq<Bytes>, control: seq<Item>,
                    written: seq<Message>): (s: State)
  {
    State(Parent(parent, false, written, None), Worker(worker, false, received, inputs, None, None),
          control, false, written)
  }

  lemma HonestReady(h: Host, job: Job, isolation: Bytes) returns (steps: seq<Step>, s: State)
    requires h.isolated(isolation)
    ensures Runs(h, job, INITIAL, steps, s)
    ensures s == Snapshot(Validated, Isolated, 0, [], [], [Ready(job.worker, isolation)])
  {
    steps, s := ParentThen(h, job, [], INITIAL, Place(true));
    steps, s := WorkerThen(h, job, steps, s, WriteReady(job.worker, isolation));
    steps, s := ParentThen(h, job, steps, s, ReadReady);
  }

  lemma HonestInputs(h: Host, job: Job, isolation: Bytes) returns (steps: seq<Step>, s: State)
    requires Acceptable(h, job) && h.isolated(isolation)
    ensures Runs(h, job, INITIAL, steps, s)
    ensures s == Snapshot(SentSecond, HasBoth, 2, [job.first, job.second],
                          [Descriptor(MODULE_MARKER, job.first, true), SecondItem(job)], [Ready(job.worker, isolation)])
  {
    steps, s := HonestReady(h, job, isolation);
    steps, s := ParentThen(h, job, steps, s, SendFirst);
    steps, s := ParentThen(h, job, steps, s, SendSecond);
    steps, s := WorkerThen(h, job, steps, s, ReceiveFirst);
    steps, s := WorkerThen(h, job, steps, s, ReceiveSecond);
  }

  lemma HonestAuthorization(h: Host, job: Job, isolation: Bytes) returns (steps: seq<Step>, s: State)
    requires Acceptable(h, job) && h.isolated(isolation)
    ensures Runs(h, job, INITIAL, steps, s)
    ensures s == Snapshot(Authorized, Acked, 2, [job.first, job.second],
                          [Descriptor(MODULE_MARKER, job.first, true), SecondItem(job), Octet(EXECUTE)],
                          [Ready(job.worker, isolation), Acknowledges(h, job.first, job.second)])
  {
    steps, s := HonestInputs(h, job, isolation);
    steps, s := WorkerThen(h, job, steps, s, WriteAcknowledgement);
    steps, s := ParentThen(h, job, steps, s, ReadAcknowledgement);
    steps, s := ParentThen(h, job, steps, s, SendExecute);
  }

  lemma HonestExecution(h: Host, job: Job, isolation: Bytes, output: Output) returns (steps: seq<Step>, s: State)
    requires Acceptable(h, job) && h.isolated(isolation) && |output.parts| == PartCount(job.operation)
    ensures Runs(h, job, INITIAL, steps, s)
    ensures s.parent.phase == Shut && s.worker.phase == Ran && !s.parent.stopped && !s.worker.stopped
    ensures s.worker.output == Some(output) && |s.written| == 2 && s.parent.seen == s.written
  {
    steps, s := HonestAuthorization(h, job, isolation);
    steps, s := ParentThen(h, job, steps, s, Shutdown);
    steps, s := WorkerThen(h, job, steps, s, ReadExecute);
    steps, s := WorkerThen(h, job, steps, s, ReadEnd);
    steps, s := WorkerThen(h, job, steps, s, Run(output));
  }

  /** The parent's frame rules admit this output. */
  predicate Reportable(operation: Operation, output: Output)
  {
    && output.exitCode == 0 && |output.parts| == PartCount(operation)
    && forall k :: 3 <= k < FrameCount(operation) ==> Framing.Admits(PartRule(operation, k), output.parts[k - 3])
  }

  /** Between two output frames: everything written has been read and both sides go on. */
  predicate Reporting(h: Host, job: Job, s: State, output: Output)
  {
    && s.parent.phase == Shut && s.worker.phase == Ran && !s.parent.stopped && !s.worker.stopped
    && s.worker.output == Some(output) && 2 <= |s.written| && s.parent.seen == s.written
    && |s.written| <= 3 + |output.parts|
    && forall k :: 2 <= k < |s.written| ==> s.written[k] == OutputMessage(h, output, k)
  }

  lemma HonestWrite(h: Host, job: Job, before: seq<Step>, t: State, output: Output) returns (steps: seq<Step>, s: State)
    requires Runs(h, job, INITIAL, before, t) && Reportable(job.operation, output)
    requires Reporting(h, job, t, output) && |t.written| < FrameCount(job.operation)
    ensures Runs(h, job, INITIAL, steps, s)
    ensures s == t.(written := t.written + [OutputMessage(h, output, |t.written|)])
  {
    steps, s := WorkerThen(h, job, before, t, WriteOutput);
  }

  lemma HonestRead(h: Host, job: Job, before: seq<Step>, t: State) returns (steps: seq<Step>, s: State)
    requires Runs(h, job, INITIAL, before, t) && t.parent.phase == Shut && !t.parent.stopped
    requires 2 <= |t.parent.seen| < FrameCount(job.operation) && |t.written| == |t.parent.seen| + 1
    requires AcceptsOutput(job.operation, |t.parent.seen|, t.written[|t.parent.seen|])
    ensures Runs(h, job, INITIAL, steps, s)
    ensures s == t.(parent := t.parent.(seen := t.parent.seen + [t.written[|t.parent.seen|]]))
  {
    steps, s := ParentThen(h, job, before, t, ReadOutput);
  }

  lemma FrameAccepted(h: Host, operation: Operation, output: Output, k: nat)
    requires Reportable(operation, output) && 2 <= k < FrameCount(operation)
    ensures AcceptsOutput(operation, k, OutputMessage(h, output, k))
  {
  }

  lemma HonestFrame(h: Host, job: Job, before: seq<Step>, t: State, output: Output) returns (steps: seq<Step>, s: State)
    requires Runs(h, job, INITIAL, before, t) && Reportable(job.operation, output)
    requires Reporting(h, job, t, output) && |t.written| < FrameCount(job.operation)
    ensures Runs(h, job, INITIAL, steps, s) && Reporting(h, job, s, output) && |s.written| == |t.written| + 1
  {
    steps, s := HonestWrite(h, job, before, t, output);
    FrameAccepted(h, job.operation, output, |t.written|);
    steps, s := HonestRead(h, job, steps, s);
  }

  lemma HonestOutput(h: Host, job: Job, isolation: Bytes, output: Output, n: nat) returns (steps: seq<Step>, s: State)
    requires Acceptable(h, job) && h.isolated(isolation) && Reportable(job.operation, output)
    requires 2 <= n <= FrameCount(job.operation)
    ensures Runs(h, job, INITIAL, steps, s) && Reporting(h, job, s, output) && |s.written| == n
    decreases n
  {
    if n == 2 {
      steps, s := HonestExecution(h, job, isolation, output);
    } else {
      steps, s := HonestOutput(h, job, isolation, output, n - 1);
      steps, s := HonestFrame(h, job, steps, s, output);
    }
  }

  lemma ReportedParts(h: Host, job: Job, s: State, output: Output)
    requires Reportable(job.operation, output) && Reporting(h, job, s, output)
    requires |s.written| == FrameCount(job.operation)
    ensures ReadInFull(job.operation, s.parent.seen) && Parts(job.operation, s.parent.seen) == output.parts
    ensures Validates(h, s.parent.seen[2], output.parts)
  {
    assert s.parent.seen[2] == OutputMessage(h, output, 2);
  }

  /** For inputs within the limits, any isolation the parent accepts and any output its frame rules admit, some run
      reports exactly that output. */
  lemma HonestRun(h: Host, job: Job, isolation: Bytes, output: Output) returns (steps: seq<Step>, s: State)
    requires Acceptable(h, job) && h.isolated(isolation) && Reportable(job.operation, output)
    ensures Runs(h, job, INITIAL, steps, s) && s.parent.result == Some(output.parts)
  {
    steps, s := HonestOutput(h, job, isolation, output, FrameCount(job.operation));
    ReportedParts(h, job, s, output);
    steps, s := ParentThen(h, job, steps, s, Finish);
  }
}
