/** The receiving side of the shapes: the fixed array that remembers the colour of each
    instance handle, the content checks of the ports, and where they part. */
module ShapeReader {
  import opened ShapeKeys

  datatype InstanceState = Alive | Disposed | NoWriters

  datatype Sample = Sample(handle: nat, valid: bool, state: InstanceState,
                           color: string, x: int, y: int, size: int)

  datatype Line = Data(color: string, x: int, y: int, size: int) | NotAlive(color: string)

  // ---- The array cache of the C port ----

  type Colors = map<nat, string>

  /** What a put does to the remembered colours: known handles are updated, new ones are
      dropped once the array is full. */
  function PutColor(m: Colors, capacity: nat, handle: nat, color: string): Colors {
    if handle in m || |m| < capacity then m[handle := Truncate(color)] else m
  }

  /** A handle that is not remembered reads as the empty string. */
  function ColorOf(m: Colors, handle: nat): string {
    if handle in m then m[handle] else ""
  }

  class ColorCache {
    const handles: array<nat>
    const colors: array<string>
    const used: array<bool>
    ghost var filled: nat
    ghost var model: Colors
    ghost var slot: map<nat, nat>

    /** Used slots form a prefix with distinct handles, and the model is their contents. */
    ghost predicate Valid()
      reads this, handles, colors, used
    {
      && handles.Length == colors.Length == used.Length
      && filled <= used.Length && |model| == filled
      && (forall i :: 0 <= i < used.Length ==> (used[i] <==> i < filled))
      && (forall i :: 0 <= i < filled ==> handles[i] in model && model[handles[i]] == colors[i])
      && (forall i :: 0 <= i < filled ==> handles[i] in slot && slot[handles[i]] == i)
      && (forall h :: h in model ==> h in slot && slot[h] < filled && handles[slot[h]] == h)
    }

    constructor (capacity: nat)
      ensures Valid() && model == map[] && used.Length == capacity
      ensures fresh(handles) && fresh(colors) && fresh(used)
    {
      handles := new nat[capacity](_ => 0);
      colors := new string[capacity](_ => "");
      used := new bool[capacity](_ => false);
      filled, model, slot := 0, map[], map[];
    }

    method Overwrite(i: nat, color: string)
      requires Valid() && i < filled
      modifies this`model, colors
      ensures Valid() && model == old(model)[handles[i] := Truncate(color)]
    {
      colors[i] := Truncate(color);
      model := model[handles[i] := Truncate(color)];
    }

    method WriteSlot(i: nat, handle: nat, color: string)
      requires i < used.Length && handles.Length == colors.Length == used.Length
      modifies handles, colors, used
      ensures forall j :: 0 <= j < used.Length ==> used[j] == (j == i || old(used[j]))
      ensures forall j :: 0 <= j < used.Length ==> handles[j] == if j == i then handle else old(handles[j])
      ensures forall j :: 0 <= j < used.Length ==> colors[j] == if j == i then color else old(colors[j])
    {
      used[i], handles[i], colors[i] := true, handle, color;
    }

    method Fill(i: nat, handle: nat, color: string)
      requires Valid() && i == filled < used.Length && handle !in model
      modifies this, handles, colors, used
      ensures Valid() && model == old(model)[handle := Truncate(color)]
    {
      WriteSlot(i, handle, Truncate(color));
      model, slot := model[handle := Truncate(color)], slot[handle := i];
      filled := filled + 1;
    }

    method Put(handle: nat, color: string)
      requires Valid()
      modifies this, handles, colors, used
      ensures Valid() && model == PutColor(old(model), used.Length, handle, color)
    {
      var i := 0;
      while i < used.Length
        invariant 0 <= i <= used.Length
        invariant forall j :: 0 <= j < i ==> !(used[j] && handles[j] == handle)
      {
        if used[i] && handles[i] == handle {
          Overwrite(i, color);
          return;
        }
        i := i + 1;
      }
      assert handle !in model;
      i := 0;
      while i < used.Length
        invariant 0 <= i <= filled
      {
        if !used[i] {
          Fill(i, handle, color);
          return;
        }
        i := i + 1;
      }
    }

    method Get(handle: nat) returns (color: string)
      requires Valid()
      ensures color == ColorOf(model, handle)
    {
      var i := 0;
      while i < used.Length
        invariant 0 <= i <= used.Length
        invariant forall j :: 0 <= j < i ==> !(used[j] && handles[j] == handle)
      {
        if used[i] && handles[i] == handle {
          return colors[i];
        }
        i := i + 1;
      }
      return "";
    }
  }

  // ---- The cache as a map ----

  datatype PutCall = PutCall(handle: nat, color: string)

  function PutAll(capacity: nat, puts: seq<PutCall>): Colors {
    if puts == [] then map[]
    else var last := puts[|puts| - 1]; PutColor(PutAll(capacity, puts[..|puts| - 1]), capacity, last.handle, last.color)
  }

  /** The hash map of the other ports after the same puts. */
  function MapAll(puts: seq<PutCall>): Colors {
    if puts == [] then map[]
    else var last := puts[|puts| - 1]; MapAll(puts[..|puts| - 1])[last.handle := last.color]
  }

  /** The first `capacity` different handles that were put. */
  function FirstHandles(capacity: nat, puts: seq<PutCall>): (r: set<nat>)
    ensures |r| <= capacity
  {
    if puts == [] then {}
    else
      var before := FirstHandles(capacity, puts[..|puts| - 1]);
      if |before| < capacity then
        assert |before + {puts[|puts| - 1].handle}| <= |before| + 1;
        before + {puts[|puts| - 1].handle}
      else before
  }

  predicate ColorsFit(puts: seq<PutCall>) {
    forall i :: 0 <= i < |puts| ==> |puts[i].color| <= COLOR_LIMIT
  }

  /** After any sequence of puts the array holds what the unbounded map holds, restricted to
      the handles that came first: those keep being updated, all later ones are dropped. */
  lemma {:induction false} CacheIsBoundedMap(capacity: nat, puts: seq<PutCall>)
    requires ColorsFit(puts)
    ensures PutAll(capacity, puts).Keys == FirstHandles(capacity, puts) <= MapAll(puts).Keys
    ensures forall h :: h in PutAll(capacity, puts) ==> PutAll(capacity, puts)[h] == MapAll(puts)[h]
  {
    if puts != [] {
      CacheIsBoundedMap(capacity, puts[..|puts| - 1]);
      var before, last := PutAll(capacity, puts[..|puts| - 1]), puts[|puts| - 1];
      assert |before| == |before.Keys|;
    }
  }

  lemma {:induction false} AllHandlesFit(capacity: nat, puts: seq<PutCall>)
    requires |MapAll(puts).Keys| <= capacity
    ensures FirstHandles(capacity, puts) == MapAll(puts).Keys
  {
    if puts != [] {
      var before, last := MapAll(puts[..|puts| - 1]), puts[|puts| - 1];
      assert MapAll(puts).Keys == before.Keys + {last.handle};
      assert |before.Keys| <= |before.Keys + {last.handle}|;
      AllHandlesFit(capacity, puts[..|puts| - 1]);
      if |before.Keys| >= capacity {
        assert before.Keys == before.Keys + {last.handle} by {
          assert |before.Keys + {last.handle} - before.Keys| == 0;
        }
      }
    }
  }

  /** Up to its capacity in different handles the array and the hash map agree. */
  lemma CacheAgreesWithMap(capacity: nat, puts: seq<PutCall>)
    requires ColorsFit(puts) && |MapAll(puts).Keys| <= capacity
    ensures PutAll(capacity, puts) == MapAll(puts)
  {
    CacheIsBoundedMap(capacity, puts);
    AllHandlesFit(capacity, puts);
  }

  // ---- The content checks ----

  predicate InRange(s: Sample) {
    0 <= s.x < 320 && 0 <= s.y < 240 && s.size >= 1
  }

  /** `Kept` goes on with the colours it carries, `Raised` is the hard failure, `Paused`
      leaves the rest of the queue for the next round. */
  datatype Verdict = Kept(colors: Colors, line: Line) | Raised | Paused

  function DataLine(s: Sample): Line {
    Data(s.color, s.x, s.y, s.size)
  }

  function NotAliveLine(m: Colors, s: Sample): Line {
    NotAlive(if s.color != "" then s.color else ColorOf(m, s.handle))
  }

  /** The handler of the Java port. */
  function JavaStep(m: Colors, s: Sample): Verdict {
    if !s.valid then Kept(m, NotAliveLine(m, s))
    else if s.handle in m && m[s.handle] != s.color then Raised
    else if !InRange(s) then Raised
    else Kept(m[s.handle := s.color], DataLine(s))
  }

  /** The take loop of the C port, with the array cache. */
  function CStep(m: Colors, capacity: nat, s: Sample): Verdict {
    if !s.valid then
      if s.state != Alive then Kept(m, NotAliveLine(m, s)) else Paused
    else if ColorOf(m, s.handle) != "" && ColorOf(m, s.handle) != s.color then Raised
    else if !InRange(s) then Raised
    else Kept(PutColor(m, capacity, s.handle, s.color), DataLine(s))
  }

  /** The handler of the C++ port: looking up the colour for a not-alive sample enters an
      empty colour for a handle that is not there. */
  function CppStep(m: Colors, s: Sample): Verdict {
    if !s.valid then
      if s.state == Alive then Paused
      else Kept(if s.color != "" || s.handle in m then m else m[s.handle := ""], NotAliveLine(m, s))
    else if s.handle in m && m[s.handle] != s.color then Raised
    else if !InRange(s) then Raised
    else Kept(m[s.handle := s.color], DataLine(s))
  }

  datatype Port = Java | C(capacity: nat) | Cpp

  function StepOf(p: Port, m: Colors, s: Sample): Verdict {
    match p
    case Java => JavaStep(m, s)
    case C(capacity) => CStep(m, capacity, s)
    case Cpp => CppStep(m, s)
  }

  datatype Ending = Drained | Stopped | Error

  /** Handling queued samples one by one until the queue is drained, paused or raised. */
  datatype Pass = Pass(colors: Colors, lines: seq<Line>, ending: Ending)

  function Run(p: Port, m: Colors, ss: seq<Sample>): Pass {
    if ss == [] then Pass(m, [], Drained)
    else
      var before := Run(p, m, ss[..|ss| - 1]);
      if before.ending != Drained then before
      else match StepOf(p, before.colors, ss[|ss| - 1])
           case Kept(m', line) => Pass(m', before.lines + [line], Drained)
           case Raised => before.(ending := Error)
           case Paused => before.(ending := Stopped)
  }

  lemma {:induction false} EndingSticks(p: Port, m: Colors, ss: seq<Sample>, k: nat)
    requires k <= |ss| && Run(p, m, ss[..k]).ending != Drained
    ensures Run(p, m, ss) == Run(p, m, ss[..k])
    decreases |ss|
  {
    if k < |ss| {
      assert ss[..|ss| - 1][..k] == ss[..k];
      EndingSticks(p, m, ss[..|ss| - 1], k);
    } else {
      assert ss[..k] == ss;
    }
  }

  lemma RunNext(p: Port, m: Colors, ss: seq<Sample>, i: nat)
    requires i < |ss| && Run(p, m, ss[..i]).ending == Drained
    ensures var before := Run(p, m, ss[..i]);
            Run(p, m, ss[..i + 1]) == (match StepOf(p, before.colors, ss[i])
                                       case Kept(m', line) => Pass(m', before.lines + [line], Drained)
                                       case Raised => before.(ending := Error)
                                       case Paused => before.(ending := Stopped))
  {
    assert ss[..i + 1][..i] == ss[..i];
  }

  lemma {:induction false} PrefixDrains(p: Port, m: Colors, ss: seq<Sample>, k: nat)
    requires Run(p, m, ss).ending == Drained && k <= |ss|
    ensures Run(p, m, ss[..k]).ending == Drained && |Run(p, m, ss).lines| == |ss|
    ensures Run(p, m, ss[..k]).lines == Run(p, m, ss).lines[..k]
    decreases |ss|
  {
    if ss == [] {
      assert ss[..k] == ss;
    } else if k == |ss| {
      assert ss[..k] == ss;
      PrefixDrains(p, m, ss[..k - 1], k - 1);
    } else {
      assert ss[..|ss| - 1][..k] == ss[..k];
      PrefixDrains(p, m, ss[..|ss| - 1], k);
    }
  }

  lemma LastLine(p: Port, m: Colors, ss: seq<Sample>)
    requires ss != [] && Run(p, m, ss).ending == Drained
    ensures var lines := Run(p, m, ss).lines;
            lines != [] && LineShows(lines[|lines| - 1], ss[|ss| - 1], Run(p, m, ss[..|ss| - 1]).colors)
  {
  }

  /** What any port prints for a stream that it gets through, sample by sample: the contents of
      a valid sample, the key of a not-alive one that has it, and otherwise the colour that
      the port remembers for the handle by then. */
  lemma LinesShow(p: Port, m: Colors, ss: seq<Sample>)
    requires Run(p, m, ss).ending == Drained
    ensures |Run(p, m, ss).lines| == |ss|
    ensures forall i :: 0 <= i < |ss| ==>
              Run(p, m, ss[..i]).ending == Drained
              && LineShows(Run(p, m, ss).lines[i], ss[i], Run(p, m, ss[..i]).colors)
  {
    PrefixDrains(p, m, ss, 0);
    forall i | 0 <= i < |ss|
      ensures Run(p, m, ss[..i]).ending == Drained
      ensures LineShows(Run(p, m, ss).lines[i], ss[i], Run(p, m, ss[..i]).colors)
    {
      LineIs(p, m, ss, i);
    }
  }

  lemma LineIs(p: Port, m: Colors, ss: seq<Sample>, i: nat)
    requires i < |ss| && Run(p, m, ss).ending == Drained && |Run(p, m, ss).lines| == |ss|
    ensures Run(p, m, ss[..i]).ending == Drained
    ensures LineShows(Run(p, m, ss).lines[i], ss[i], Run(p, m, ss[..i]).colors)
  {
    PrefixDrains(p, m, ss, i);
    PrefixDrains(p, m, ss, i + 1);
    assert ss[..i + 1][..i] == ss[..i];
    LastLine(p, m, ss[..i + 1]);
  }

  predicate LineShows(line: Line, s: Sample, m: Colors) {
    line == if s.valid then Data(s.color, s.x, s.y, s.size)
            else if s.color != "" then NotAlive(s.color)
            else NotAlive(if s.handle in m then m[s.handle] else "")
  }

  /** The Java reader with its hash map as a field. */
  class JavaReader {
    var ihCache: Colors

    constructor ()
      ensures ihCache == map[]
    {
      ihCache := map[];
    }

    /** A failed content check leaves the map as it was. */
    method ProcessSample(s: Sample) returns (line: Line, raised: bool)
      modifies this
      ensures raised <==> JavaStep(old(ihCache), s) == Raised
      ensures raised ==> ihCache == old(ihCache)
      ensures !raised ==> JavaStep(old(ihCache), s) == Kept(ihCache, line)
    {
      line, raised := DataLine(s), false;
      if !s.valid {
        line := NotAlive(if s.color != "" then s.color
                         else if s.handle in ihCache then ihCache[s.handle] else "");
        return;
      }
      if s.handle in ihCache && ihCache[s.handle] != s.color {
        raised := true;
      } else if s.x < 0 || s.x >= 320 || s.y < 0 || s.y >= 240 || s.size < 1 {
        raised := true;
      } else {
        ihCache := ihCache[s.handle := s.color];
      }
    }

    method Drain(queue: seq<Sample>) returns (lines: seq<Line>, raised: bool)
      modifies this
      ensures Run(Java, old(ihCache), queue) == Pass(ihCache, lines, if raised then Error else Drained)
    {
      lines, raised := [], false;
      var i := 0;
      while i < |queue|
        invariant 0 <= i <= |queue|
        invariant Run(Java, old(ihCache), queue[..i]) == Pass(ihCache, lines, Drained)
      {
        var line;
        line, raised := ProcessSample(queue[i]);
        assert queue[..i + 1][..i] == queue[..i];
        if raised {
          EndingSticks(Java, old(ihCache), queue, i + 1);
          return;
        }
        lines := lines + [line];
        i := i + 1;
      }
      assert queue[..i] == queue;
    }
  }

  /** The body of the C port's take loop, for one sample that was taken. */
  method HandleTaken(cache: ColorCache, s: Sample) returns (line: Line, ending: Ending)
    requires cache.Valid()
    modifies cache, cache.handles, cache.colors, cache.used
    ensures cache.Valid()
    ensures ending == Drained ==> CStep(old(cache.model), cache.used.Length, s) == Kept(cache.model, line)
    ensures ending == Stopped ==> CStep(old(cache.model), cache.used.Length, s) == Paused
    ensures ending == Error ==> CStep(old(cache.model), cache.used.Length, s) == Raised
    ensures ending != Drained ==> cache.model == old(cache.model)
  {
    line, ending := DataLine(s), Drained;
    if !s.valid {
      if s.state == Disposed || s.state == NoWriters {
        var color := s.color;
        if color == "" {
          color := cache.Get(s.handle);
        }
        line := NotAlive(color);
      } else {
        ending := Stopped;
      }
      return;
    }
    var known := cache.Get(s.handle);
    if known != "" && known != s.color {
      ending := Error;
    } else if s.x < 0 || s.x >= 320 || s.y < 0 || s.y >= 240 || s.size < 1 {
      ending := Error;
    } else {
      cache.Put(s.handle, s.color);
    }
  }

  /** One pass of the C port's take loop over what is queued. */
  method TakeLoop(cache: ColorCache, queue: seq<Sample>) returns (lines: seq<Line>, ending: Ending)
    requires cache.Valid()
    modifies cache, cache.handles, cache.colors, cache.used
    ensures cache.Valid()
    ensures Run(C(cache.used.Length), old(cache.model), queue) == Pass(cache.model, lines, ending)
  {
    lines, ending := [], Drained;
    ghost var port, model0 := C(cache.used.Length), cache.model;
    var i := 0;
    while i < |queue|
      invariant 0 <= i <= |queue| && cache.Valid()
      invariant Run(port, model0, queue[..i]) == Pass(cache.model, lines, Drained)
    {
      var line;
      RunNext(port, model0, queue, i);
      line, ending := HandleTaken(cache, queue[i]);
      assert Run(port, model0, queue[..i + 1]) ==
        Pass(cache.model, if ending == Drained then lines + [line] else lines, ending);
      if ending != Drained {
        EndingSticks(port, model0, queue, i + 1);
        return;
      }
      lines := lines + [line];
      i := i + 1;
    }
    assert queue[..i] == queue;
    ending := Drained;
  }

  // ---- Key stability ----

  /** What every valid sample of a stream has to be: inside the drawing area, of a size. */
  predicate ValidInRange(ss: seq<Sample>) {
    forall i :: 0 <= i < |ss| && ss[i].valid ==>
      0 <= ss[i].x < 320 && 0 <= ss[i].y < 240 && ss[i].size >= 1
  }

  /** Every valid sample is in range and all those of one handle share one colour. */
  predicate Stable(ss: seq<Sample>) {
    && ValidInRange(ss)
    && (forall i, j :: 0 <= i < j < |ss| && ss[i].valid && ss[j].valid && ss[i].handle == ss[j].handle ==>
          ss[i].color == ss[j].color)
  }

  /** The map remembers exactly the valid samples. */
  ghost predicate Remembers(m: Colors, ss: seq<Sample>) {
    && (forall i :: 0 <= i < |ss| && ss[i].valid ==> ss[i].handle in m && m[ss[i].handle] == ss[i].color)
    && (forall h :: h in m ==> exists i :: 0 <= i < |ss| && ss[i].valid && ss[i].handle == h)
  }

  /** The Java handler raises exactly on the streams that break key stability or leave the
      drawing area. */
  lemma {:induction false} JavaAcceptsIffStable(ss: seq<Sample>)
    ensures Run(Java, map[], ss).ending != Stopped
    ensures Run(Java, map[], ss).ending == Drained <==> Stable(ss)
    ensures Stable(ss) ==> Remembers(Run(Java, map[], ss).colors, ss)
  {
    if ss != [] {
      var n := |ss| - 1;
      JavaAcceptsIffStable(ss[..n]);
      assert Stable(ss) ==> Stable(ss[..n]);
      if Stable(ss[..n]) {
        JavaAcceptsNext(Run(Java, map[], ss[..n]).colors, ss);
      }
    }
  }

  lemma JavaAcceptsNext(m: Colors, ss: seq<Sample>)
    requires ss != [] && Stable(ss[..|ss| - 1]) && Remembers(m, ss[..|ss| - 1])
    ensures JavaStep(m, ss[|ss| - 1]).Kept? <==> Stable(ss)
    ensures JavaStep(m, ss[|ss| - 1]).Kept? ==> Remembers(JavaStep(m, ss[|ss| - 1]).colors, ss)
  {
    var n := |ss| - 1;
    var s := ss[n];
    assert forall i :: 0 <= i < n ==> ss[..n][i] == ss[i];
    if s.valid && s.handle in m {
      var i :| 0 <= i < n && ss[..n][i].valid && ss[..n][i].handle == s.handle;
      assert m[s.handle] == ss[i].color;
    }
  }

  /** Which colour the Java port prints for a not-alive sample that carries no key: that of
      any earlier valid sample of the handle, and nothing if there was none. */
  lemma NotAliveIsNamed(ss: seq<Sample>, i: nat)
    requires i < |ss| && Stable(ss) && !ss[i].valid && ss[i].color == ""
    ensures Run(Java, map[], ss[..i + 1]).ending == Drained
    ensures var lines := Run(Java, map[], ss[..i + 1]).lines;
            && lines != []
            && lines[|lines| - 1].NotAlive?
            && (forall j :: 0 <= j < i && ss[j].valid && ss[j].handle == ss[i].handle ==>
                  lines[|lines| - 1].color == ss[j].color)
            && ((forall j :: 0 <= j < i && ss[j].valid ==> ss[j].handle != ss[i].handle) ==>
                  lines[|lines| - 1].color == "")
  {
    assert Stable(ss[..i]) && Stable(ss[..i + 1]);
    JavaAcceptsIffStable(ss[..i]);
    JavaAcceptsIffStable(ss[..i + 1]);
    assert ss[..i + 1][..i] == ss[..i];
    var m := Run(Java, map[], ss[..i]).colors;
    forall j | 0 <= j < i && ss[j].valid && ss[j].handle == ss[i].handle
      ensures ColorOf(m, ss[i].handle) == ss[j].color
    {
      assert ss[..i][j].valid;
    }
    if forall j :: 0 <= j < i && ss[j].valid ==> ss[j].handle != ss[i].handle {
      assert ss[i].handle !in m;
    }
  }

  // ---- Where the ports part ----

  /** Sharing the same remembered colours, the C and Java handlers do the same with a sample
      exactly in these cases. A handle remembered with an empty colour counts as unknown to
      the C port, a full array forgets, and a sample without data or ending pauses the C port. */
  predicate SameTreatment(m: Colors, capacity: nat, s: Sample) {
    if !s.valid then s.state != Alive
    else !InRange(s)
         || (if s.handle in m then m[s.handle] == s.color || m[s.handle] != "" else |m| < capacity)
  }

  lemma PortsAgreeIff(m: Colors, capacity: nat, s: Sample)
    requires |s.color| <= COLOR_LIMIT
    ensures CStep(m, capacity, s) == JavaStep(m, s) <==> SameTreatment(m, capacity, s)
  {
    if s.valid && s.handle in m && m[s.handle] == s.color {
      assert m[s.handle := s.color] == m;
    }
    if s.valid && s.handle !in m && |m| >= capacity && InRange(s) {
      assert s.handle in m[s.handle := s.color];
    }
  }

  /** Streams that the C and Java ports treat alike: no empty colours, no pauses, colours
      that fit, and no more handles than the array has slots. */
  predicate Ordinary(capacity: nat, ss: seq<Sample>) {
    && (forall i :: 0 <= i < |ss| ==> |ss[i].color| <= COLOR_LIMIT)
    && (forall i :: 0 <= i < |ss| ==> if ss[i].valid then ss[i].color != "" else ss[i].state != Alive)
    && |Handles(ss)| <= capacity
  }

  function Handles(ss: seq<Sample>): set<nat> {
    set i | 0 <= i < |ss| :: ss[i].handle
  }

  lemma SubsetSize(a: set<nat>, b: set<nat>)
    requires a <= b
    ensures |a| <= |b| && (|a| == |b| ==> a == b)
  {
    assert b == a + (b - a);
  }

  /** On ordinary streams the C port prints what the Java port prints and fails when it fails. */
  lemma {:induction false} PortsAgree(capacity: nat, ss: seq<Sample>)
    requires Ordinary(capacity, ss)
    ensures Run(C(capacity), map[], ss) == Run(Java, map[], ss)
    ensures forall h :: h in Run(Java, map[], ss).colors ==>
              h in Handles(ss) && Run(Java, map[], ss).colors[h] != ""
  {
    if ss != [] {
      var n := |ss| - 1;
      assert Handles(ss) == Handles(ss[..n]) + {ss[n].handle};
      SubsetSize(Handles(ss[..n]), Handles(ss));
      PortsAgree(capacity, ss[..n]);
      var m := Run(Java, map[], ss[..n]).colors;
      if ss[n].handle !in m {
        assert m.Keys <= Handles(ss);
        RoomFor(m.Keys, Handles(ss), ss[n].handle);
      }
      PortsAgreeIff(m, capacity, ss[n]);
    }
  }

  lemma RoomFor(a: set<nat>, b: set<nat>, h: nat)
    requires a <= b && h in b && h !in a
    ensures |a| < |b|
  {
    SubsetSize(a, b);
  }

  /** The C port lets a handle change its colour exactly when the array has no room left to
      remember the handle, or the first colour is empty and none was remembered. */
  lemma ColorChangeGoesUnseenIff(m: Colors, capacity: nat, a: Sample, b: Sample)
    requires a.valid && b.valid && InRange(a) && InRange(b)
    requires a.handle == b.handle && a.color != b.color && |a.color| <= COLOR_LIMIT
    ensures Run(C(capacity), m, [a, b]).ending == Drained <==>
              (a.handle !in m && |m| >= capacity) || (a.color == "" && ColorOf(m, a.handle) == "")
  {
    RunTwo(C(capacity), m, a, b);
  }

  lemma RunTwo(p: Port, m: Colors, a: Sample, b: Sample)
    ensures Run(p, m, [a]) == (match StepOf(p, m, a)
                               case Kept(m', line) => Pass(m', [line], Drained)
                               case Raised => Pass(m, [], Error)
                               case Paused => Pass(m, [], Stopped))
    ensures Run(p, m, [a]).ending != Drained ==> Run(p, m, [a, b]) == Run(p, m, [a])
    ensures StepOf(p, m, a).Kept? ==>
              (Run(p, m, [a, b]).ending == Drained <==> StepOf(p, StepOf(p, m, a).colors, b).Kept?)
  {
    assert [a][..0] == [];
    assert [a, b][..1] == [a];
  }

  /** After a not-alive sample without a key the C++ port takes a valid sample that the Java
      port takes, unless the handle was never seen and the colour is not empty: its look-up
      has entered an empty colour, and the valid sample fails the colour check. */
  lemma CppLookupSpoilsIff(m: Colors, gone: Sample, s: Sample)
    requires !gone.valid && gone.state != Alive && gone.color == ""
    requires s.valid && s.handle == gone.handle && InRange(s)
    ensures Run(Java, m, [gone, s]).ending == Drained && Run(Cpp, m, [gone, s]).ending == Error
            <==> s.handle !in m && s.color != ""
  {
    RunTwo(Java, m, gone, s);
    RunTwo(Cpp, m, gone, s);
  }

  // ---- Whole streams ----

  /** What a stream of accepted samples puts into a cache. */
  function Puts(ss: seq<Sample>): seq<PutCall> {
    if ss == [] then []
    else
      var last := ss[|ss| - 1];
      Puts(ss[..|ss| - 1]) + if last.valid then [PutCall(last.handle, last.color)] else []
  }

  /** The handles that an array of this capacity remembers from the stream. */
  function Remembered(capacity: nat, ss: seq<Sample>): set<nat> {
    FirstHandles(capacity, Puts(ss))
  }

  /** No sample without data and without an end of its instance. */
  predicate NoPause(ss: seq<Sample>) {
    forall i :: 0 <= i < |ss| && !ss[i].valid ==> ss[i].state != Alive
  }

  /** May the later of two samples follow the earlier one, as far as an array sees that
      remembers these handles? */
  predicate Follows(a: Sample, b: Sample, remembered: set<nat>) {
    a.valid && b.valid && a.handle == b.handle && a.handle in remembered ==>
      a.color == "" || Truncate(a.color) == b.color
  }

  predicate FollowsAll(front: seq<Sample>, s: Sample, remembered: set<nat>) {
    forall i :: 0 <= i < |front| ==> Follows(front[i], s, remembered)
  }

  predicate StableWithin(ss: seq<Sample>, remembered: set<nat>) {
    forall i, j :: 0 <= i < j < |ss| ==> Follows(ss[i], ss[j], remembered)
  }

  predicate StableInArray(capacity: nat, ss: seq<Sample>) {
    StableWithin(ss, Remembered(capacity, ss))
  }

  lemma StableWithinNext(front: seq<Sample>, s: Sample, remembered: set<nat>)
    ensures StableWithin(front + [s], remembered) <==>
              StableWithin(front, remembered) && FollowsAll(front, s, remembered)
  {
    var ss := front + [s];
    assert ss[|front|] == s && forall i :: 0 <= i < |front| ==> ss[i] == front[i];
    if StableWithin(ss, remembered) {
      forall i | 0 <= i < |front|
        ensures Follows(front[i], s, remembered)
      {
        assert Follows(ss[i], ss[|front|], remembered);
      }
      forall i, j | 0 <= i < j < |front|
        ensures Follows(front[i], front[j], remembered)
      {
        assert Follows(ss[i], ss[j], remembered);
      }
    }
  }

  predicate SameOnValid(ss: seq<Sample>, a: set<nat>, b: set<nat>) {
    forall i :: 0 <= i < |ss| && ss[i].valid ==> (ss[i].handle in a <==> ss[i].handle in b)
  }

  lemma StableWithinSame(ss: seq<Sample>, a: set<nat>, b: set<nat>)
    requires SameOnValid(ss, a, b)
    ensures StableWithin(ss, a) <==> StableWithin(ss, b)
  {
    forall i, j | 0 <= i < j < |ss|
      ensures Follows(ss[i], ss[j], a) <==> Follows(ss[i], ss[j], b)
    {
    }
  }

  /** A handle that has come up is remembered from then on or never: it is missing only from
      a full array. */
  predicate FullWhenMissing(capacity: nat, ss: seq<Sample>, remembered: set<nat>) {
    forall i :: 0 <= i < |ss| && ss[i].valid && ss[i].handle !in remembered ==> |remembered| >= capacity
  }

  function WithNext(before: set<nat>, capacity: nat, s: Sample): set<nat> {
    if s.valid && |before| < capacity then before + {s.handle} else before
  }

  lemma RememberedNext(capacity: nat, front: seq<Sample>, s: Sample)
    ensures Remembered(capacity, front + [s]) == WithNext(Remembered(capacity, front), capacity, s)
  {
    var ss := front + [s];
    assert ss[..|front|] == front;
    if s.valid {
      assert Puts(ss)[..|Puts(ss)| - 1] == Puts(front);
    } else {
      assert Puts(ss) == Puts(front);
    }
  }

  lemma WithNextIsFull(before: set<nat>, capacity: nat, front: seq<Sample>, s: Sample)
    requires FullWhenMissing(capacity, front, before)
    ensures SameOnValid(front, before, WithNext(before, capacity, s))
    ensures FullWhenMissing(capacity, front + [s], WithNext(before, capacity, s))
  {
    var ss := front + [s];
    assert ss[|front|] == s && forall i :: 0 <= i < |front| ==> ss[i] == front[i];
  }

  lemma PutsNext(capacity: nat, front: seq<Sample>, s: Sample)
    requires FullWhenMissing(capacity, front, Remembered(capacity, front))
    ensures SameOnValid(front, Remembered(capacity, front), Remembered(capacity, front + [s]))
    ensures FullWhenMissing(capacity, front + [s], Remembered(capacity, front + [s]))
  {
    RememberedNext(capacity, front, s);
    WithNextIsFull(Remembered(capacity, front), capacity, front, s);
  }

  predicate Shows(s: Sample, handle: nat, color: string) {
    s.valid && s.handle == handle && Truncate(s.color) == color
  }

  ghost predicate Shown(ss: seq<Sample>, handle: nat, color: string) {
    exists i :: 0 <= i < |ss| && Shows(ss[i], handle, color)
  }

  /** The array holds, for each handle that it remembers, the colour of some sample, with
      which all samples agree but those with an empty colour. */
  ghost predicate ArrayKnows(m: Colors, ss: seq<Sample>) {
    && (forall i :: 0 <= i < |ss| && ss[i].valid && ss[i].handle in m ==>
          ss[i].color == "" || m[ss[i].handle] == Truncate(ss[i].color))
    && (forall h :: h in m ==> Shown(ss, h, m[h]))
  }

  /** The C handler takes a sample exactly when it may follow all earlier ones, as far as the
      array remembers. */
  lemma ArrayTakes(m: Colors, capacity: nat, front: seq<Sample>, s: Sample)
    requires ArrayKnows(m, front) && s.valid
    ensures CStep(m, capacity, s).Kept? <==> InRange(s) && FollowsAll(front, s, m.Keys)
  {
    if s.handle in m {
      var k :| 0 <= k < |front| && Shows(front[k], s.handle, m[s.handle]);
      if FollowsAll(front, s, m.Keys) {
        assert Follows(front[k], s, m.Keys);
      }
    }
  }

  lemma ArrayKnowsNext(m: Colors, capacity: nat, front: seq<Sample>, s: Sample)
    requires ArrayKnows(m, front) && CStep(m, capacity, s).Kept?
    requires FullWhenMissing(capacity, front, m.Keys)
    ensures ArrayKnows(CStep(m, capacity, s).colors, front + [s])
  {
    var ss, m' := front + [s], CStep(m, capacity, s).colors;
    assert ss[|front|] == s && forall i :: 0 <= i < |front| ==> ss[i] == front[i];
    forall h | h in m'
      ensures Shown(ss, h, m'[h])
    {
      if s.valid && h == s.handle {
        assert Shows(ss[|front|], h, m'[h]);
      } else {
        var i :| 0 <= i < |front| && Shows(front[i], h, m[h]);
        assert Shows(ss[i], h, m'[h]);
      }
    }
    if s.valid {
      ArrayTakes(m, capacity, front, s);
      forall i | 0 <= i < |ss| && ss[i].valid && ss[i].handle in m'
        ensures ss[i].color == "" || m'[ss[i].handle] == Truncate(ss[i].color)
      {
        if i < |front| && ss[i].handle == s.handle {
          EarlierAgrees(m, capacity, front, s, i);
        }
      }
    }
  }

  lemma EarlierAgrees(m: Colors, capacity: nat, front: seq<Sample>, s: Sample, i: nat)
    requires i < |front| && front[i].valid && s.valid && front[i].handle == s.handle
    requires FullWhenMissing(capacity, front, m.Keys) && FollowsAll(front, s, m.Keys)
    requires s.handle in PutColor(m, capacity, s.handle, s.color)
    ensures front[i].color == "" || PutColor(m, capacity, s.handle, s.color)[s.handle] == Truncate(front[i].color)
  {
    assert |m| == |m.Keys|;
    assert Follows(front[i], s, m.Keys);
  }

  /** The C handler gets through a stream exactly when every valid sample is in range, none
      pauses it, and no two samples of a remembered handle differ in colour, where an empty
      colour may be followed by any and colours beyond the limit are compared when cut. */
  lemma {:induction false} CAcceptsIff(capacity: nat, ss: seq<Sample>)
    ensures FullWhenMissing(capacity, ss, Remembered(capacity, ss))
    ensures Run(C(capacity), map[], ss).ending == Drained <==>
              ValidInRange(ss) && NoPause(ss) && StableInArray(capacity, ss)
    ensures var m := Run(C(capacity), map[], ss).colors;
            Run(C(capacity), map[], ss).ending == Drained ==> ArrayKnows(m, ss) && m.Keys == Remembered(capacity, ss)
  {
    if ss != [] {
      var front, s := ss[..|ss| - 1], ss[|ss| - 1];
      assert ss == front + [s];
      CAcceptsIff(capacity, front);
      PutsNext(capacity, front, s);
      StableNext(capacity, front, s);
      var before := Run(C(capacity), map[], front);
      if before.ending == Drained {
        CStepIff(before.colors, capacity, front, s);
        if CStep(before.colors, capacity, s).Kept? {
          ArrayKnowsNext(before.colors, capacity, front, s);
          CKeys(before.colors, capacity, s);
          RememberedNext(capacity, front, s);
        }
      }
      OthersNext(front, s);
    }
  }

  lemma OthersNext(front: seq<Sample>, s: Sample)
    ensures ValidInRange(front + [s]) <==> ValidInRange(front) && (s.valid ==> InRange(s))
    ensures NoPause(front + [s]) <==> NoPause(front) && (!s.valid ==> s.state != Alive)
  {
    var ss := front + [s];
    assert ss[|front|] == s && forall i :: 0 <= i < |front| ==> ss[i] == front[i];
  }

  lemma StableNext(capacity: nat, front: seq<Sample>, s: Sample)
    requires FullWhenMissing(capacity, front, Remembered(capacity, front))
    ensures StableInArray(capacity, front + [s]) <==>
              StableInArray(capacity, front) && FollowsAll(front, s, Remembered(capacity, front))
  {
    var before, after := Remembered(capacity, front), Remembered(capacity, front + [s]);
    PutsNext(capacity, front, s);
    StableWithinNext(front, s, after);
    StableWithinSame(front, before, after);
    forall i | 0 <= i < |front|
      ensures Follows(front[i], s, before) <==> Follows(front[i], s, after)
    {
    }
  }

  lemma CStepIff(m: Colors, capacity: nat, front: seq<Sample>, s: Sample)
    requires ArrayKnows(m, front)
    ensures CStep(m, capacity, s).Kept? <==>
              (if s.valid then InRange(s) else s.state != Alive) && FollowsAll(front, s, m.Keys)
  {
    if s.valid {
      ArrayTakes(m, capacity, front, s);
    }
  }

  lemma PutKeys(m: Colors, capacity: nat, h: nat, color: string)
    ensures PutColor(m, capacity, h, color).Keys == if |m| < capacity then m.Keys + {h} else m.Keys
  {
    if h in m {
      assert m[h := Truncate(color)].Keys == m.Keys == m.Keys + {h};
    }
  }

  lemma CKeys(m: Colors, capacity: nat, s: Sample)
    requires CStep(m, capacity, s).Kept?
    ensures CStep(m, capacity, s).colors.Keys == WithNext(m.Keys, capacity, s)
  {
    assert |m| == |m.Keys|;
    PutKeys(m, capacity, s.handle, s.color);
  }

  /** A look-up that spoils the map of the C++ port: a not-alive sample without a key, for a
      handle without a valid sample so far, whose first later valid sample has a colour. */
  predicate Spoils(ss: seq<Sample>, i: int, j: int) {
    && 0 <= i < j < |ss| && !ss[i].valid && ss[i].color == "" && ss[j].valid && ss[j].color != ""
    && ss[j].handle == ss[i].handle
    && forall k :: 0 <= k < j && ss[k].valid ==> ss[k].handle != ss[i].handle
  }

  ghost predicate Spoilt(ss: seq<Sample>) {
    exists i, j :: Spoils(ss, i, j)
  }

  /** The map of the C++ port holds the valid samples, and an empty colour for the other
      handles that were looked up. */
  ghost predicate CppKnows(m: Colors, ss: seq<Sample>) {
    && (forall i :: 0 <= i < |ss| && ss[i].valid ==> ss[i].handle in m && m[ss[i].handle] == ss[i].color)
    && (forall i :: 0 <= i < |ss| && !ss[i].valid && ss[i].color == "" ==> ss[i].handle in m)
    && (forall h :: h in m ==> ValidBefore(ss, h) || (m[h] == "" && LookedUp(ss, h)))
  }

  predicate ValidBefore(ss: seq<Sample>, h: nat) {
    exists i :: 0 <= i < |ss| && ss[i].valid && ss[i].handle == h
  }

  predicate LookedUp(ss: seq<Sample>, h: nat) {
    exists i :: 0 <= i < |ss| && !ss[i].valid && ss[i].color == "" && ss[i].handle == h
  }

  lemma CppKnowsNext(m: Colors, ss: seq<Sample>)
    requires ss != [] && CppKnows(m, ss[..|ss| - 1]) && CppStep(m, ss[|ss| - 1]).Kept?
    ensures CppKnows(CppStep(m, ss[|ss| - 1]).colors, ss)
  {
    var n := |ss| - 1;
    var front, s, m' := ss[..n], ss[n], CppStep(m, ss[n]).colors;
    assert forall i :: 0 <= i < n ==> front[i] == ss[i];
    assert ss[n] == s;
    forall h | h in m'
      ensures ValidBefore(ss, h) || (m'[h] == "" && LookedUp(ss, h))
    {
      if h in m && ValidBefore(front, h) {
        var i :| 0 <= i < n && front[i].valid && front[i].handle == h;
        assert ss[i].valid;
      } else if h in m && (h != s.handle || !s.valid) {
        var i :| 0 <= i < n && !front[i].valid && front[i].color == "" && front[i].handle == h;
        assert !ss[i].valid;
      }
    }
  }

  /** The last sample makes the stream spoilt exactly when the C++ map holds an empty colour
      that no valid sample put there. */
  lemma CppTakesNext(m: Colors, ss: seq<Sample>)
    requires ss != [] && CppKnows(m, ss[..|ss| - 1])
    requires Stable(ss[..|ss| - 1]) && !Spoilt(ss[..|ss| - 1])
    ensures var s := ss[|ss| - 1];
            CppStep(m, s).Kept? <==> (if s.valid then Stable(ss) && !Spoilt(ss) else s.state != Alive)
  {
    var n := |ss| - 1;
    var front, s := ss[..n], ss[n];
    assert forall i :: 0 <= i < n ==> front[i] == ss[i];
    if s.valid {
      SpoiltNext(ss);
      if s.handle in m && ValidBefore(front, s.handle) {
        var i :| 0 <= i < n && front[i].valid && front[i].handle == s.handle;
        assert m[s.handle] == ss[i].color;
      }
    }
  }

  lemma SpoiltNext(ss: seq<Sample>)
    requires ss != []
    ensures var (front, s) := (ss[..|ss| - 1], ss[|ss| - 1]);
            Spoilt(ss) <==> Spoilt(front)
                            || (s.valid && s.color != "" && LookedUp(front, s.handle) && !ValidBefore(front, s.handle))
  {
    var n := |ss| - 1;
    var front, s := ss[..n], ss[n];
    assert forall i :: 0 <= i < n ==> front[i] == ss[i];
    if Spoilt(ss) {
      var i, j :| Spoils(ss, i, j);
      if j < n {
        assert Spoils(front, i, j);
      } else {
        assert front[i].handle == s.handle;
      }
    }
    if Spoilt(front) {
      var i, j :| Spoils(front, i, j);
      assert Spoils(ss, i, j);
    }
    if s.valid && s.color != "" && LookedUp(front, s.handle) && !ValidBefore(front, s.handle) {
      var i :| 0 <= i < n && !front[i].valid && front[i].color == "" && front[i].handle == s.handle;
      assert Spoils(ss, i, n);
    }
  }

  lemma LongerStreams(ss: seq<Sample>)
    requires ss != []
    ensures var (front, s) := (ss[..|ss| - 1], ss[|ss| - 1]);
            && (Stable(ss) ==> Stable(front)) && (!s.valid && Stable(front) ==> Stable(ss))
            && (NoPause(ss) <==> NoPause(front) && (!s.valid ==> s.state != Alive))
            && (Spoilt(front) ==> Spoilt(ss)) && (!s.valid && Spoilt(ss) ==> Spoilt(front))
  {
    assert forall i :: 0 <= i < |ss| - 1 ==> ss[..|ss| - 1][i] == ss[i];
    SpoiltNext(ss);
  }

  /** The C++ handler gets through a stream exactly when it is stable, nothing pauses it, and
      no look-up for a not-alive sample has spoilt it. */
  lemma {:induction false} CppAcceptsIff(ss: seq<Sample>)
    ensures Run(Cpp, map[], ss).ending == Drained <==> Stable(ss) && NoPause(ss) && !Spoilt(ss)
    ensures Run(Cpp, map[], ss).ending == Drained ==> CppKnows(Run(Cpp, map[], ss).colors, ss)
  {
    if ss != [] {
      var n := |ss| - 1;
      CppAcceptsIff(ss[..n]);
      LongerStreams(ss);
      var before := Run(Cpp, map[], ss[..n]);
      if before.ending == Drained {
        CppTakesNext(before.colors, ss);
        if CppStep(before.colors, ss[n]).Kept? {
          CppKnowsNext(before.colors, ss);
        }
      }
    }
  }

  /** Of the streams without pauses that the Java port accepts, the C++ port rejects exactly
      the spoilt ones. */
  lemma CppRejectsIff(ss: seq<Sample>)
    requires NoPause(ss)
    ensures Run(Java, map[], ss).ending == Drained && Run(Cpp, map[], ss).ending == Error
            <==> Stable(ss) && Spoilt(ss)
  {
    JavaAcceptsIffStable(ss);
    CppAcceptsIff(ss);
    NeverStops(ss);
  }

  lemma {:induction false} NeverStops(ss: seq<Sample>)
    requires NoPause(ss)
    ensures Run(Cpp, map[], ss).ending != Stopped
  {
    if ss != [] {
      NeverStops(ss[..|ss| - 1]);
    }
  }

  /** The C port lets a change of colour pass exactly on these streams: in range, without
      pauses, stable as far as the array sees, and not stable. */
  lemma CMissesChangeIff(capacity: nat, ss: seq<Sample>)
    ensures Run(C(capacity), map[], ss).ending == Drained && Run(Java, map[], ss).ending == Error
            <==> ValidInRange(ss) && NoPause(ss) && StableInArray(capacity, ss) && !Stable(ss)
  {
    JavaAcceptsIffStable(ss);
    CAcceptsIff(capacity, ss);
  }

  // ---- Names of not-alive samples ----

  /** Which colour the C port prints for a not-alive sample without a key: that of the earlier
      valid samples of its handle, cut at the limit and empty ones aside, if the array remembers
      the handle, and nothing otherwise. */
  lemma CNotAliveIsNamed(capacity: nat, ss: seq<Sample>, i: nat)
    requires i < |ss| && Run(C(capacity), map[], ss).ending == Drained && !ss[i].valid && ss[i].color == ""
    ensures var (lines, h) := (Run(C(capacity), map[], ss).lines, ss[i].handle);
            && i < |lines| && lines[i].NotAlive?
            && (forall j :: 0 <= j < i && ss[j].valid && ss[j].handle == h && ss[j].color != ""
                            && h in Remembered(capacity, ss[..i]) ==>
                  lines[i].color == Truncate(ss[j].color))
            && (h !in Remembered(capacity, ss[..i])
                || (forall j :: 0 <= j < i && ss[j].valid && ss[j].handle == h ==> ss[j].color == "") ==>
                  lines[i].color == "")
  {
    LinesShow(C(capacity), map[], ss);
    CAcceptsIff(capacity, ss[..i]);
    var m := Run(C(capacity), map[], ss[..i]).colors;
    assert LineShows(Run(C(capacity), map[], ss).lines[i], ss[i], m);
    assert forall j :: 0 <= j < i ==> ss[..i][j] == ss[j];
    if ss[i].handle in m {
      var k :| 0 <= k < i && Shows(ss[..i][k], ss[i].handle, m[ss[i].handle]);
      assert ss[k].valid && ss[k].handle == ss[i].handle;
    }
  }

  /** The C++ port prints the colour of any earlier valid sample of the handle, and nothing if
      there was none. */
  lemma CppNotAliveIsNamed(ss: seq<Sample>, i: nat)
    requires i < |ss| && Run(Cpp, map[], ss).ending == Drained && !ss[i].valid && ss[i].color == ""
    ensures var (lines, h) := (Run(Cpp, map[], ss).lines, ss[i].handle);
            && i < |lines| && lines[i].NotAlive?
            && (forall j :: 0 <= j < i && ss[j].valid && ss[j].handle == h ==> lines[i].color == ss[j].color)
            && ((forall j :: 0 <= j < i && ss[j].valid ==> ss[j].handle != h) ==> lines[i].color == "")
  {
    LinesShow(Cpp, map[], ss);
    CppAcceptsIff(ss[..i]);
    var m := Run(Cpp, map[], ss[..i]).colors;
    assert LineShows(Run(Cpp, map[], ss).lines[i], ss[i], m);
    assert forall j :: 0 <= j < i ==> ss[..i][j] == ss[j];
  }
}
