/**
 * The framebuffer size shared by all processes: a system property, written once, and a per-process cache of it.
 * Each get and each save is one step.
 */
module FbSize {
  /** The property and what each process has cached; a process missing from the map has cached nothing yet. */
  datatype World = World(property: nat, cache: map<nat, nat>)

  datatype Step = Get(pid: nat) | Save(pid: nat, size: nat)

  function Cached(w: World, pid: nat): nat {
    if pid in w.cache then w.cache[pid] else 0
  }

  /** What get_fb_size returns to a process. */
  function Seen(w: World, pid: nat): nat {
    if Cached(w, pid) != 0 then Cached(w, pid) else w.property
  }

  function Next(w: World, s: Step): World {
    match s
    case Get(pid) => w.(cache := w.cache[pid := Seen(w, pid)])
    case Save(pid, size) =>
      if Seen(w, pid) != 0 then w.(cache := w.cache[pid := Seen(w, pid)])
      else World(size, w.cache[pid := size])
  }

  function Run(w: World, steps: seq<Step>): World
    decreases |steps|
  {
    if steps == [] then w else Run(Next(w, steps[0]), steps[1..])
  }

  const START := World(0, map[])

  // ----- the source's procedures -----

  class Property {
    var value: nat

    constructor ()
      ensures value == 0
    {
      value := 0;
    }
  }

  /** The caches when only process 0 is looked at. */
  function OneCache(size: nat): map<nat, nat> {
    var nothing: map<nat, nat> := map[];
    nothing[0 := size]
  }

  class Process {
    var cached: nat
    const property: Property

    constructor (property: Property)
      ensures this.property == property && cached == 0
    {
      this.property, cached := property, 0;
    }

    /** The state as this process, number 0, sees it. */
    function AsWorld(): World
      reads this, property
    {
      World(property.value, OneCache(cached))
    }

    method GetFbSize() returns (size: nat)
      modifies this
      ensures size == Seen(old(AsWorld()), 0)
      ensures AsWorld() == Next(old(AsWorld()), Get(0)) && cached == size
    {
      Recached(cached, Seen(AsWorld(), 0));
      if cached != 0 {
        return cached;
      }
      cached := property.value;
      return cached;
    }

    method SaveFbSize(size: nat)
      modifies this, property
      ensures AsWorld() == Next(old(AsWorld()), Save(0, size))
    {
      Recached(cached, Seen(AsWorld(), 0));
      Recached(cached, size);
      var current := GetFbSize();
      if current != 0 {
        return;
      }
      cached := size;
      property.value := size;
    }
  }

  /** Caching again replaces what was cached before. */
  lemma Recached(before: nat, size: nat)
    ensures OneCache(before)[0 := size] == OneCache(size)
  {
  }

  // ----- every run -----

  /** Every non-zero cached size is the shared one. */
  ghost predicate Coherent(w: World) {
    forall pid: nat :: Cached(w, pid) != 0 ==> Cached(w, pid) == w.property
  }

  /** The first non-zero size saved. */
  function FirstSaved(steps: seq<Step>): nat {
    if steps == [] then 0
    else if steps[0].Save? && steps[0].size != 0 then steps[0].size
    else FirstSaved(steps[1..])
  }

  lemma StepKeepsCoherence(w: World, s: Step)
    requires Coherent(w)
    ensures Coherent(Next(w, s))
    ensures w.property != 0 ==> Next(w, s).property == w.property
    ensures w.property == 0 ==> Next(w, s).property == FirstSaved([s])
  {
    assert Cached(w, s.pid) != 0 ==> Cached(w, s.pid) == w.property;
    forall pid: nat | Cached(Next(w, s), pid) != 0
      ensures Cached(Next(w, s), pid) == Next(w, s).property
    {
      assert Cached(w, pid) != 0 ==> Cached(w, pid) == w.property;
    }
  }

  /** In every run the first non-zero save is the property's value from then on; nothing overwrites it. */
  lemma {:induction false} FirstSaveWins(w: World, steps: seq<Step>)
    requires Coherent(w)
    ensures Coherent(Run(w, steps))
    ensures Run(w, steps).property == if w.property != 0 then w.property else FirstSaved(steps)
    decreases |steps|
  {
    if steps != [] {
      StepKeepsCoherence(w, steps[0]);
      FirstSaveWins(Next(w, steps[0]), steps[1..]);
    }
  }

  /** Once a size has been saved, every process sees the same one, however the run goes on. */
  lemma EveryoneSeesTheSame(before: seq<Step>, after: seq<Step>, pid: nat)
    requires FirstSaved(before) != 0
    ensures Seen(Run(Run(START, before), after), pid) == FirstSaved(before)
  {
    FirstSaveWins(START, before);
    FirstSaveWins(Run(START, before), after);
    var w := Run(Run(START, before), after);
    assert Cached(w, pid) != 0 ==> Cached(w, pid) == w.property;
  }
}
