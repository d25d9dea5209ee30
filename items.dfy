/** The item-verification slots shared by the booking modal and the
    verification page: one slot per requested unit, each waiting for a
    photo of that item. */
module ItemSlots {
  import opened Basics
  import opened Domain

  /** A file picked in the browser, known here only by its name. */
  datatype File = File(name: string)

  /** `{ type, index, file, preview }`: the tier (shown as "Pequeño",
      "Mediano", "Grande"), the 1-based number of the unit within its tier,
      the chosen file and its data-URL preview. */
  datatype Slot = Slot(kind: Tier, index: int, file: Option<File>, preview: string)

  function Empty(kind: Tier, index: int): Slot
  {
    Slot(kind, index, None, "")
  }

  /** `n` empty slots of one tier numbered 1..n; none when `n <= 0`. */
  function Run(kind: Tier, n: int): seq<Slot>
  {
    seq(Max(0, n), i => Empty(kind, i + 1))
  }

  /** The slots for a selection: small, then medium, then large. */
  function Slots(q: Tiers): seq<Slot>
  {
    Run(Small, q.small) + Run(Medium, q.medium) + Run(Large, q.large)
  }

  /** The three `for`/`push` loops that build `newItems`. */
  method Expand(q: Tiers) returns (items: seq<Slot>)
    ensures items == Slots(q)
  {
    items := [];
    for i := 0 to Max(0, q.small)
      invariant items == Run(Small, i)
    {
      items := items + [Empty(Small, i + 1)];
    }
    for i := 0 to Max(0, q.medium)
      invariant items == Run(Small, q.small) + Run(Medium, i)
    {
      items := items + [Empty(Medium, i + 1)];
    }
    for i := 0 to Max(0, q.large)
      invariant items == Run(Small, q.small) + Run(Medium, q.medium) + Run(Large, i)
    {
      items := items + [Empty(Large, i + 1)];
    }
  }

  /** For a non-negative selection there are `small + medium + large`
      slots: the `small` small ones first, numbered 1..small, then the
      medium ones, then the large ones, each without a file or preview. */
  lemma SlotsShape(q: Tiers)
    requires q.NonNegative()
    ensures |Slots(q)| == q.small + q.medium + q.large
    ensures forall i :: 0 <= i < q.small ==> Slots(q)[i] == Empty(Small, i + 1)
    ensures forall i :: q.small <= i < q.small + q.medium ==> Slots(q)[i] == Empty(Medium, i - q.small + 1)
    ensures forall i :: q.small + q.medium <= i < |Slots(q)| ==> Slots(q)[i] == Empty(Large, i - q.small - q.medium + 1)
  {
  }

  /** The slots of a tier are exactly as many as its selected quantity
      (none for a quantity of 0 or less). */
  function CountKind(items: seq<Slot>, kind: Tier): (n: nat)
    ensures n <= |items|
  {
    if items == [] then 0
    else CountKind(items[..|items| - 1], kind) + (if items[|items| - 1].kind == kind then 1 else 0)
  }

  lemma {:induction false} CountKindAppend(a: seq<Slot>, b: seq<Slot>, kind: Tier)
    ensures CountKind(a + b, kind) == CountKind(a, kind) + CountKind(b, kind)
    decreases |b|
  {
    if b == [] {
      assert a + b == a;
    } else {
      assert (a + b)[..|a + b| - 1] == a + b[..|b| - 1];
      CountKindAppend(a, b[..|b| - 1], kind);
    }
  }

  lemma {:induction false} CountRun(kind: Tier, other: Tier, n: nat)
    ensures CountKind(Run(kind, n), other) == if kind == other then n else 0
  {
    if n > 0 {
      assert Run(kind, n)[..n - 1] == Run(kind, n - 1);
      CountRun(kind, other, n - 1);
    }
  }

  lemma SlotsPerTier(q: Tiers, t: Tier)
    ensures CountKind(Slots(q), t) == Max(0, q.Get(t))
  {
    CountKindAppend(Run(Small, q.small) + Run(Medium, q.medium), Run(Large, q.large), t);
    CountKindAppend(Run(Small, q.small), Run(Medium, q.medium), t);
    CountRun(Small, t, Max(0, q.small));
    CountRun(Medium, t, Max(0, q.medium));
    CountRun(Large, t, Max(0, q.large));
  }

  /** `handleFileChange(index, file)`: slot `index` gets the file and, once
      the reader has produced it, the data URL `dataUrl`; clearing the file
      clears the preview. */
  function WithFile(items: seq<Slot>, index: int, file: Option<File>, dataUrl: string): (r: seq<Slot>)
    requires 0 <= index < |items|
    ensures |r| == |items|
    ensures r[index].kind == items[index].kind && r[index].index == items[index].index
    ensures r[index].file == file
    ensures r[index].preview == if file.Some? then dataUrl else ""
    ensures forall j :: 0 <= j < |items| && j != index ==> r[j] == items[j]
  {
    items[index := items[index].(file := file, preview := if file.Some? then dataUrl else "")]
  }

  /** No slot is waiting for a photo (`!items.some(i => !i.file)`). */
  predicate AllFilled(items: seq<Slot>)
  {
    forall i :: 0 <= i < |items| ==> items[i].file.Some?
  }

  /** `items.map(i => i.preview)`. */
  function Photos(items: seq<Slot>): (r: seq<string>)
    ensures |r| == |items|
    ensures forall i :: 0 <= i < |items| ==> r[i] == items[i].preview
  {
    seq(|items|, i requires 0 <= i < |items| => items[i].preview)
  }
}
