/**
 * `CompositeOutput` (`image_creator/output/composite.py`): a list of outputs
 * that forwards every call to each of its members, in list order, and the
 * composite progress bar that does the same with one progress bar per member.
 *
 * The members are foreign objects: an output is known by an identity, and
 * what the members do with a call is out of view. What the model keeps is the
 * order in which the calls reach them, as a log of deliveries.
 */
module Composite {
  import opened Base

  /** An output instance (a member of the composite), known by its identity. */
  type OutputId = nat

  /** A progress bar created by output `owner` as the `stamp`-th delivery of the log. */
  datatype ProgressRef = ProgressRef(owner: OutputId, stamp: nat)

  /** What a call is delivered to: an output, or a progress bar of one. */
  datatype Target = Out(output: OutputId) | Bar(progress: ProgressRef)

  /** The calls an output or a progress bar can receive, with their arguments. */
  datatype Call =
    | Error(msg: string, newLine: bool)
    | Warn(msg: string, newLine: bool)
    | Success(msg: string, newLine: bool)
    | Info(msg: string, newLine: bool)
    | Cleanup
    | Clear
    | NewProgress(size: nat, title: string, barType: string)
    | Goto(dest: nat)
    | Next
    | Done(result: string)

  datatype Delivery = Delivery(target: Target, call: Call)

  /** The deliveries made so far, oldest first: what the members were asked to do, and in which order. */
  class Log {
    var deliveries: seq<Delivery>

    constructor()
      ensures deliveries == []
    {
      deliveries := [];
    }
  }

  /** `call` delivered to every target, in order. */
  function FanOut(targets: seq<Target>, call: Call): (r: seq<Delivery>)
    ensures |r| == |targets|
  {
    seq(|targets|, i requires 0 <= i < |targets| => Delivery(targets[i], call))
  }

  /** The members of a composite as delivery targets. */
  function Outs(outputs: seq<OutputId>): (r: seq<Target>)
    ensures |r| == |outputs|
  {
    seq(|outputs|, i requires 0 <= i < |outputs| => Out(outputs[i]))
  }

  /** The progress bars of a composite progress as delivery targets. */
  function Bars(progresses: seq<ProgressRef>): (r: seq<Target>)
    ensures |r| == |progresses|
  {
    seq(|progresses|, i requires 0 <= i < |progresses| => Bar(progresses[i]))
  }

  /**
   * Each target receives the call exactly as many times as it is listed, and
   * nothing else is delivered.
   */
  lemma {:induction false} FanOutCount(targets: seq<Target>, call: Call, d: Delivery)
    ensures Count(FanOut(targets, call), d) == if d.call == call then Count(targets, d.target) else 0
    decreases |targets|
  {
    if targets != [] {
      assert FanOut(targets, call)[1..] == FanOut(targets[1..], call);
      FanOutCount(targets[1..], call, d);
    }
  }

  /** Forwarding to a list made of two parts reaches the first part first. */
  lemma FanOutAppend(a: seq<Target>, b: seq<Target>, call: Call)
    ensures FanOut(a + b, call) == FanOut(a, call) + FanOut(b, call)
  {
    assert forall i | 0 <= i < |a + b| :: FanOut(a + b, call)[i] == (FanOut(a, call) + FanOut(b, call))[i];
  }

  /** The `for out in self` loop shared by every forwarding method: one delivery per target, in order. */
  method Deliver(log: Log, targets: seq<Target>, call: Call)
    modifies log
    ensures log.deliveries == old(log.deliveries) + FanOut(targets, call)
  {
    var i := 0;
    while i < |targets|
      invariant i <= |targets|
      invariant log.deliveries == old(log.deliveries) + FanOut(targets[..i], call)
    {
      assert FanOut(targets[..i + 1], call) == FanOut(targets[..i], call) + [Delivery(targets[i], call)];
      log.deliveries := log.deliveries + [Delivery(targets[i], call)];
      i := i + 1;
    }
    assert targets[..i] == targets;
  }

  /** A list of outputs that behaves as one output. */
  class CompositeOutput {
    var members: seq<OutputId>

    /** Without outputs the composite is empty; otherwise it holds them, in order. */
    constructor(outputs: Option<seq<OutputId>>)
      ensures members == outputs.GetOr([])
    {
      members := [];
      if outputs.Some? {
        members := members + outputs.value;
      }
    }

    method Error(log: Log, msg: string, newLine: bool)
      modifies log
      ensures log.deliveries == old(log.deliveries) + FanOut(Outs(members), Call.Error(msg, newLine))
    {
      Deliver(log, Outs(members), Call.Error(msg, newLine));
    }

    method Warn(log: Log, msg: string, newLine: bool)
      modifies log
      ensures log.deliveries == old(log.deliveries) + FanOut(Outs(members), Call.Warn(msg, newLine))
    {
      Deliver(log, Outs(members), Call.Warn(msg, newLine));
    }

    method Success(log: Log, msg: string, newLine: bool)
      modifies log
      ensures log.deliveries == old(log.deliveries) + FanOut(Outs(members), Call.Success(msg, newLine))
    {
      Deliver(log, Outs(members), Call.Success(msg, newLine));
    }

    method Info(log: Log, msg: string, newLine: bool)
      modifies log
      ensures log.deliveries == old(log.deliveries) + FanOut(Outs(members), Call.Info(msg, newLine))
    {
      Deliver(log, Outs(members), Call.Info(msg, newLine));
    }

    method Cleanup(log: Log)
      modifies log
      ensures log.deliveries == old(log.deliveries) + FanOut(Outs(members), Call.Cleanup)
    {
      Deliver(log, Outs(members), Call.Cleanup);
    }

    method Clear(log: Log)
      modifies log
      ensures log.deliveries == old(log.deliveries) + FanOut(Outs(members), Call.Clear)
    {
      Deliver(log, Outs(members), Call.Clear);
    }
  }

  /**
   * The progress bars a composite progress holds when it is created while the
   * log has `start` deliveries: member `i` creates its bar with delivery `start + i`.
   */
  function Created(outputs: seq<OutputId>, start: nat): (r: seq<ProgressRef>)
    ensures |r| == |outputs|
  {
    seq(|outputs|, i requires 0 <= i < |outputs| => ProgressRef(outputs[i], start + i))
  }

  /**
   * There is one progress bar per member occurrence, in member order, no two
   * alike even when an output is listed twice, and each is named after the
   * delivery by which its owner was asked to create it.
   */
  lemma CreatedSpec(outputs: seq<OutputId>, before: seq<Delivery>, call: Call)
    ensures var bars := Created(outputs, |before|);
      var log := before + FanOut(Outs(outputs), call);
      && (forall i | 0 <= i < |bars| :: bars[i].owner == outputs[i])
      && (forall i, j | 0 <= i < j < |bars| :: bars[i] != bars[j])
      && (forall i | 0 <= i < |bars| :: bars[i].stamp < |log| && log[bars[i].stamp] == Delivery(Out(outputs[i]), call))
  {
    var log := before + FanOut(Outs(outputs), call);
    forall i | 0 <= i < |outputs| ensures log[|before| + i] == Delivery(Out(outputs[i]), call) {
      assert log[|before| + i] == FanOut(Outs(outputs), call)[i];
    }
  }

  /** `CompositeOutput._Progress`: one progress bar per member of the parent, moved in step. */
  class CompositeProgress {
    var progresses: seq<ProgressRef>

    /** Asks every member of `parent`, in order, for a progress bar of its own. */
    constructor(parent: CompositeOutput, log: Log, size: nat, title: string, barType: string)
      modifies log
      ensures log.deliveries == old(log.deliveries) + FanOut(Outs(parent.members), NewProgress(size, title, barType))
      ensures progresses == Created(parent.members, |old(log.deliveries)|)
    {
      var outputs := parent.members;
      var start := |log.deliveries|;
      var created: seq<ProgressRef> := [];
      var i := 0;
      while i < |outputs|
        invariant i <= |outputs|
        invariant created == Created(outputs[..i], start)
        invariant log.deliveries == old(log.deliveries) + FanOut(Outs(outputs[..i]), NewProgress(size, title, barType))
      {
        var call := NewProgress(size, title, barType);
        assert Outs(outputs[..i + 1]) == Outs(outputs[..i]) + [Out(outputs[i])];
        FanOutAppend(Outs(outputs[..i]), [Out(outputs[i])], call);
        created := created + [ProgressRef(outputs[i], |log.deliveries|)];
        log.deliveries := log.deliveries + [Delivery(Out(outputs[i]), call)];
        assert created == Created(outputs[..i + 1], start);
        i := i + 1;
      }
      assert outputs[..i] == outputs;
      progresses := created;
    }

    method Goto(log: Log, dest: nat)
      modifies log
      ensures log.deliveries == old(log.deliveries) + FanOut(Bars(progresses), Call.Goto(dest))
    {
      Deliver(log, Bars(progresses), Call.Goto(dest));
    }

    method Next(log: Log)
      modifies log
      ensures log.deliveries == old(log.deliveries) + FanOut(Bars(progresses), Call.Next)
    {
      Deliver(log, Bars(progresses), Call.Next);
    }

    method Success(log: Log, result: string)
      modifies log
      ensures log.deliveries == old(log.deliveries) + FanOut(Bars(progresses), Call.Done(result))
    {
      Deliver(log, Bars(progresses), Call.Done(result));
    }
  }
}
