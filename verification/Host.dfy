/** A host driving the exported entry points one call after another, and what stays true along the way. */
module Host {
  import opened Wrappers
  import opened Lifecycle

  /** One call into the library, with the outcomes its collaborators will produce. */
  datatype Call =
    | InitCall(conf: Option<string>, parses: bool, coreNew: Option<Handle>, netNew: Option<Handle>)
    | ShutdownCall
    | StartSocks5Call(listen: Option<Port>)
    | StopSocks5Call
    | CreateProxyCall(address: string, listen: Option<Port>)

  /** What the host sees: an integer, nothing (void entry points), or the process ending. */
  datatype Answer = Code(value: int) | NoValue | ProcessExit

  datatype Step = Step(answer: Answer, next: Ygg)

  /** One call: its answer and the state after it. */
  function Apply(s: Ygg, c: Call): (r: Step)
    ensures r.answer.NoValue? <==> c.ShutdownCall? || c.StopSocks5Call?
    ensures r.answer.ProcessExit? <==>
      c.StartSocks5Call? && ((s.socks5.None? && c.listen.None?) || (s.socks5.Some? && !s.logger))
    ensures r.answer.ProcessExit? ==> r.next == s
    ensures s.logger ==> r.next.logger
    ensures Valid(s) ==> Valid(r.next)
  {
    match c
    case InitCall(conf, parses, coreNew, netNew) =>
      var rep := Init(s, conf, parses, coreNew, netNew);
      Step(Code(rep.code), rep.next)
    case ShutdownCall => Step(NoValue, Shutdown(s))
    case StartSocks5Call(listen) =>
      (match StartSocks5Proxy(s, listen)
       case Started(rep) => Step(Code(rep.code), rep.next)
       case Exited => Step(ProcessExit, s))
    case StopSocks5Call => Step(NoValue, StopSocks5Proxy(s))
    case CreateProxyCall(address, listen) =>
      var rep := CreateProxyServerTCP(s, address, listen);
      Step(Code(rep.code), rep.next)
  }

  /** The answers to a run of calls and the record at its end. */
  datatype Run = Run(answers: seq<Answer>, final: Ygg)

  /** Makes the calls in order; a call that ends the process is the last one answered. */
  function Execute(s: Ygg, calls: seq<Call>): (r: Run)
    ensures |r.answers| <= |calls|
    ensures forall i :: 0 <= i < |r.answers| - 1 ==> !r.answers[i].ProcessExit?
    ensures |r.answers| < |calls| ==> 0 < |r.answers| && r.answers[|r.answers| - 1].ProcessExit?
    ensures Valid(s) ==> Valid(r.final)
    decreases |calls|
  {
    if |calls| == 0 then Run([], s)
    else
      var step := Apply(s, calls[0]);
      if step.answer.ProcessExit? then Run([ProcessExit], s)
      else
        var rest := Execute(step.next, calls[1..]);
        Run([step.answer] + rest.answers, rest.final)
  }

  /** Shutdown called any number of times in a row has the effect of one call. */
  lemma {:induction false} ShutdownRepeated(s: Ygg, calls: seq<Call>)
    requires 0 < |calls|
    requires forall i :: 0 <= i < |calls| ==> calls[i] == ShutdownCall
    ensures Execute(s, calls).final == Shutdown(s)
    ensures |Execute(s, calls).answers| == |calls|
    ensures forall i :: 0 <= i < |calls| ==> Execute(s, calls).answers[i] == NoValue
    decreases |calls|
  {
    var next := Shutdown(s);
    if |calls| > 1 {
      ShutdownRepeated(next, calls[1..]);
      assert Shutdown(next) == next;
    }
  }

  predicate NoShutdown(calls: seq<Call>)
  {
    forall i :: 0 <= i < |calls| ==> !calls[i].ShutdownCall?
  }

  /** Once a core exists, only Shutdown removes it: without one, the same core is still there at the end
      and every Init in between is refused (NULL configuration or second initialisation). */
  lemma {:induction false} CoreSurvivesWithoutShutdown(s: Ygg, calls: seq<Call>)
    requires s.core.Some?
    requires NoShutdown(calls)
    ensures Execute(s, calls).final.core == s.core
    ensures forall i :: 0 <= i < |Execute(s, calls).answers| && calls[i].InitCall? ==>
      Execute(s, calls).answers[i] in {Code(NoConfig), Code(AlreadyInitialized)}
    decreases |calls|
  {
    if |calls| > 0 {
      var step := Apply(s, calls[0]);
      if !step.answer.ProcessExit? {
        assert step.next.core == s.core;
        CoreSurvivesWithoutShutdown(step.next, calls[1..]);
        var r := Execute(s, calls);
        var rest := Execute(step.next, calls[1..]);
        assert r.answers == [step.answer] + rest.answers;
        forall i | 0 < i < |r.answers| && calls[i].InitCall?
          ensures r.answers[i] in {Code(NoConfig), Code(AlreadyInitialized)}
        {
          assert r.answers[i] == rest.answers[i - 1];
          assert calls[1..][i - 1] == calls[i];
        }
      }
    }
  }

  /** Once a SOCKS5 listener exists and Init has created the logger, the listener is never dropped: every
      later Start answers 0 without opening a socket, the process never exits through Start, and the
      listener's port never changes. */
  lemma {:induction false} ListenerIsPermanent(s: Ygg, calls: seq<Call>)
    requires s.socks5.Some? && s.logger
    ensures |Execute(s, calls).answers| == |calls|
    ensures Execute(s, calls).final.socks5.Some?
    ensures Execute(s, calls).final.socks5.value.port == s.socks5.value.port
    ensures forall i :: 0 <= i < |calls| && calls[i].StartSocks5Call? ==> Execute(s, calls).answers[i] == Code(0)
    decreases |calls|
  {
    if |calls| > 0 {
      var step := Apply(s, calls[0]);
      assert step.next.socks5.Some? && step.next.socks5.value.port == s.socks5.value.port && step.next.logger;
      ListenerIsPermanent(step.next, calls[1..]);
      var r := Execute(s, calls);
      var rest := Execute(step.next, calls[1..]);
      assert r.answers == [step.answer] + rest.answers;
      forall i | 0 < i < |calls| && calls[i].StartSocks5Call?
        ensures r.answers[i] == Code(0)
      {
        assert r.answers[i] == rest.answers[i - 1];
        assert calls[1..][i - 1] == calls[i];
      }
    }
  }

  /** A listener opened before any Init: a second Start ends the process, so the run is cut short. */
  lemma StartTwiceBeforeInitExits(p: Port, listen: Option<Port>, rest: seq<Call>)
    ensures Execute(Fresh, [StartSocks5Call(Some(p)), StartSocks5Call(listen)] + rest).answers == [Code(p), ProcessExit]
  {
  }
}
