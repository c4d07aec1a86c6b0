/**
 * Module load and unload of the simplechar driver: three resources are
 * acquired in order (a major number, a device class, a device node) and
 * released in the reverse order, on the unwinding paths of a failed load
 * and on unload.
 *
 * The kernel's registration calls are not modelled; each step's outcome
 * is an argument. The ghost `trace` records every acquisition and release,
 * and `Replay` checks that each release gives back the most recently
 * acquired resource still held.
 */
module Registration {

  datatype Option<T> = None | Some(value: T)

  datatype Resource = MajorNumber | DeviceClass | DeviceNode

  datatype Event = Acquired(res: Resource) | Released(res: Resource)

  /** An error pointer as `IS_ERR` recognises it: a negated errno. */
  type Errno = e: int | -4095 <= e <= -1 witness -1

  /** The outcome of `class_create` or `device_create`. */
  datatype Step = Created | Failed(err: Errno)

  /** The stack of resources held after `trace`, starting from `held`, or
      None when some release is not of the top of the stack. */
  function Replay(held: seq<Resource>, trace: seq<Event>): Option<seq<Resource>>
    decreases |trace|
  {
    if trace == [] then Some(held)
    else match trace[0]
      case Acquired(r) => Replay(held + [r], trace[1..])
      case Released(r) =>
        if held != [] && held[|held| - 1] == r then Replay(held[..|held| - 1], trace[1..])
        else None
  }

  /** Replaying a concatenation is replaying its parts one after the other. */
  lemma {:induction false} ReplayAppend(held: seq<Resource>, t1: seq<Event>, t2: seq<Event>)
    ensures Replay(held, t1 + t2) ==
      match Replay(held, t1)
      case None => None
      case Some(h) => Replay(h, t2)
    decreases |t1|
  {
    if t1 == [] {
      assert t1 + t2 == t2;
    } else {
      assert (t1 + t2)[0] == t1[0];
      assert (t1 + t2)[1..] == t1[1..] + t2;
      match t1[0]
      case Acquired(r) => ReplayAppend(held + [r], t1[1..], t2);
      case Released(r) =>
        if held != [] && held[|held| - 1] == r {
          ReplayAppend(held[..|held| - 1], t1[1..], t2);
        }
    }
  }

  /** A well-nested trace works the same on top of anything already held:
      it never reaches below what it found. */
  lemma {:induction false} ReplayFrame(below: seq<Resource>, held: seq<Resource>, trace: seq<Event>, after: seq<Resource>)
    requires Replay(held, trace) == Some(after)
    ensures Replay(below + held, trace) == Some(below + after)
    decreases |trace|
  {
    if trace != [] {
      match trace[0]
      case Acquired(r) =>
        assert below + held + [r] == below + (held + [r]);
        ReplayFrame(below, held + [r], trace[1..], after);
      case Released(r) =>
        assert (below + held)[..|below + held| - 1] == below + held[..|held| - 1];
        ReplayFrame(below, held[..|held| - 1], trace[1..], after);
    }
  }

  /** The events of a load whose steps succeed as the flags say. */
  function InitEvents(majorOk: bool, classOk: bool, deviceOk: bool): seq<Event>
  {
    if !majorOk then []
    else if !classOk then [Acquired(MajorNumber), Released(MajorNumber)]
    else if !deviceOk then
      [Acquired(MajorNumber), Acquired(DeviceClass), Released(DeviceClass), Released(MajorNumber)]
    else [Acquired(MajorNumber), Acquired(DeviceClass), Acquired(DeviceNode)]
  }

  /** The events of an unload. */
  function ExitEvents(): seq<Event>
  {
    [Released(DeviceNode), Released(DeviceClass), Released(MajorNumber)]
  }

  const AllHeld: seq<Resource> := [MajorNumber, DeviceClass, DeviceNode]

  /** Replaying an acquisition pushes the resource. */
  lemma ReplayAcquire(held: seq<Resource>, r: Resource, rest: seq<Event>)
    ensures Replay(held, [Acquired(r)] + rest) == Replay(held + [r], rest)
  {
    assert ([Acquired(r)] + rest)[1..] == rest;
  }

  /** Replaying the release of the top of the stack pops it. */
  lemma ReplayRelease(held: seq<Resource>, r: Resource, rest: seq<Event>)
    ensures Replay(held + [r], [Released(r)] + rest) == Replay(held, rest)
  {
    assert ([Released(r)] + rest)[1..] == rest;
    assert (held + [r])[..|held + [r]| - 1] == held;
  }

  /** A load is all or nothing: it is well nested, and ends holding all
      three resources when every step succeeds and none otherwise. */
  lemma InitAllOrNothing(majorOk: bool, classOk: bool, deviceOk: bool)
    ensures Replay([], InitEvents(majorOk, classOk, deviceOk)) ==
      Some(if majorOk && classOk && deviceOk then AllHeld else [])
  {
    var m, c, d := MajorNumber, DeviceClass, DeviceNode;
    if !majorOk {
    } else if !classOk {
      calc {
        Replay([], InitEvents(majorOk, classOk, deviceOk));
        { assert InitEvents(majorOk, classOk, deviceOk) == [Acquired(m)] + ([Released(m)] + []); }
        Replay([], [Acquired(m)] + ([Released(m)] + []));
        { ReplayAcquire([], m, [Released(m)] + []); }
        Replay([] + [m], [Released(m)] + []);
        { ReplayRelease([], m, []); }
        Replay([], []);
      }
    } else if !deviceOk {
      calc {
        Replay([], InitEvents(majorOk, classOk, deviceOk));
        { assert InitEvents(majorOk, classOk, deviceOk) ==
            [Acquired(m)] + ([Acquired(c)] + ([Released(c)] + ([Released(m)] + []))); }
        Replay([], [Acquired(m)] + ([Acquired(c)] + ([Released(c)] + ([Released(m)] + []))));
        { ReplayAcquire([], m, [Acquired(c)] + ([Released(c)] + ([Released(m)] + []))); }
        Replay([] + [m], [Acquired(c)] + ([Released(c)] + ([Released(m)] + [])));
        { ReplayAcquire([] + [m], c, [Released(c)] + ([Released(m)] + [])); }
        Replay([] + [m] + [c], [Released(c)] + ([Released(m)] + []));
        { ReplayRelease([] + [m], c, [Released(m)] + []); }
        Replay([] + [m], [Released(m)] + []);
        { ReplayRelease([], m, []); }
        Replay([], []);
      }
    } else {
      calc {
        Replay([], InitEvents(majorOk, classOk, deviceOk));
        { assert InitEvents(majorOk, classOk, deviceOk) ==
            [Acquired(m)] + ([Acquired(c)] + ([Acquired(d)] + [])); }
        Replay([], [Acquired(m)] + ([Acquired(c)] + ([Acquired(d)] + [])));
        { ReplayAcquire([], m, [Acquired(c)] + ([Acquired(d)] + [])); }
        Replay([] + [m], [Acquired(c)] + ([Acquired(d)] + []));
        { ReplayAcquire([] + [m], c, [Acquired(d)] + []); }
        Replay([] + [m] + [c], [Acquired(d)] + []);
        { ReplayAcquire([] + [m] + [c], d, []); }
        Replay([] + [m] + [c] + [d], []);
        { assert [] + [m] + [c] + [d] == AllHeld; }
        Some(AllHeld);
      }
    }
  }

  /** Unload empties a fully loaded module. */
  lemma ExitReleasesAll()
    ensures Replay(AllHeld, ExitEvents()) == Some([])
  {
    var m, c, d := MajorNumber, DeviceClass, DeviceNode;
    calc {
      Replay(AllHeld, ExitEvents());
      { assert AllHeld == [] + [m] + [c] + [d];
        assert ExitEvents() == [Released(d)] + ([Released(c)] + ([Released(m)] + [])); }
      Replay([] + [m] + [c] + [d], [Released(d)] + ([Released(c)] + ([Released(m)] + [])));
      { ReplayRelease([] + [m] + [c], d, [Released(c)] + ([Released(m)] + [])); }
      Replay([] + [m] + [c], [Released(c)] + ([Released(m)] + []));
      { ReplayRelease([] + [m], c, [Released(m)] + []); }
      Replay([] + [m], [Released(m)] + []);
      { ReplayRelease([], m, []); }
      Replay([], []);
    }
  }

  /** Load followed, when it succeeded, by unload leaves exactly what was
      held before: repeated load/unload cycles leak nothing. */
  lemma LoadUnloadCycle(held: seq<Resource>, majorOk: bool, classOk: bool, deviceOk: bool)
    ensures var ok := majorOk && classOk && deviceOk;
      Replay(held, InitEvents(majorOk, classOk, deviceOk) + (if ok then ExitEvents() else [])) == Some(held)
  {
    var ok := majorOk && classOk && deviceOk;
    var t1 := InitEvents(majorOk, classOk, deviceOk);
    var t2 := if ok then ExitEvents() else [];
    InitAllOrNothing(majorOk, classOk, deviceOk);
    ReplayAppend([], t1, t2);
    ExitReleasesAll();
    assert Replay([], t1 + t2) == Some([]);
    ReplayFrame(held, [], t1 + t2, []);
    assert held + [] == held;
  }

  /** The module's registration globals. */
  class SimpleCharModule {
    var majorNumber: int
    var held: seq<Resource>
    ghost var trace: seq<Event>

    ghost predicate Valid()
      reads this
    {
      Replay([], trace) == Some(held)
    }

    /** Before the module is loaded nothing is held. */
    constructor ()
      ensures Valid() && held == [] && trace == []
    {
      majorNumber := 0;
      held := [];
      trace := [];
    }

    /** One registration call that succeeded. */
    method Acquire(r: Resource)
      requires Valid()
      modifies this
      ensures Valid()
      ensures held == old(held) + [r] && trace == old(trace) + [Acquired(r)]
      ensures majorNumber == old(majorNumber)
    {
      ReplayAppend([], trace, [Acquired(r)]);
      held := held + [r];
      trace := trace + [Acquired(r)];
    }

    /** One unregistration call; only the last resource acquired and still
        held may be given back. */
    method Release(r: Resource)
      requires Valid()
      requires held != [] && held[|held| - 1] == r
      modifies this
      ensures Valid()
      ensures held == old(held)[..|old(held)| - 1] && trace == old(trace) + [Released(r)]
      ensures majorNumber == old(majorNumber)
    {
      ReplayAppend([], trace, [Released(r)]);
      held := held[..|held| - 1];
      trace := trace + [Released(r)];
    }

    /** simplechar_init, given the outcome of each registration step:
        `majorResult` is what `register_chrdev` returns. */
    method Init(majorResult: int, classStep: Step, deviceStep: Step) returns (r: int)
      requires Valid() && held == []
      modifies this
      ensures Valid()
      ensures trace == old(trace) + InitEvents(majorResult >= 0, classStep.Created?, deviceStep.Created?)
      // the first failing step's error is returned
      ensures majorResult < 0 ==> r == majorResult
      ensures majorResult >= 0 && classStep.Failed? ==> r == classStep.err
      ensures majorResult >= 0 && classStep.Created? && deviceStep.Failed? ==> r == deviceStep.err
      // all or nothing
      ensures r == 0 <==> held == AllHeld
      ensures r < 0 <==> held == []
      // the result of the first step is stored before it is checked
      ensures majorNumber == majorResult
    {
      majorNumber := majorResult;
      if majorResult < 0 {
        return majorResult;
      }
      Acquire(MajorNumber);
      if classStep.Failed? {
        Release(MajorNumber);
        return classStep.err;
      }
      Acquire(DeviceClass);
      if deviceStep.Failed? {
        Release(DeviceClass);
        Release(MajorNumber);
        return deviceStep.err;
      }
      Acquire(DeviceNode);
      r := 0;
    }

    /** simplechar_exit: runs only after a successful load, and gives the
        resources back in the reverse order of acquisition. */
    method Exit()
      requires Valid() && held == AllHeld
      modifies this
      ensures Valid() && held == []
      ensures trace == old(trace) + ExitEvents()
      ensures majorNumber == old(majorNumber)
    {
      Release(DeviceNode);
      Release(DeviceClass);
      Release(MajorNumber);
    }
  }
}
