/**
  The palette held by the page: an ordered sequence of swatches, each a colour and a
  lock flag, and the three ways the page rewrites it (seeding, regenerating the
  unlocked swatches, flipping one lock).

  The random integers the page would draw are supplied by the caller, one per
  position, each in the generator's range.
*/
module PaletteStore {
  import opened Wrappers
  import opened HexColor

  datatype Swatch = Swatch(color: string, locked: bool)

  /** Number of swatches seeded on first load. */
  const Size: nat := 5

  predicate InRange(seeds: seq<nat>) {
    forall i :: 0 <= i < |seeds| ==> seeds[i] < RandomRange
  }

  /** Every swatch holds a well-formed `#rrggbb` colour. */
  predicate WellFormed(p: seq<Swatch>) {
    forall i :: 0 <= i < |p| ==> IsColor(p[i].color)
  }

  /** The five unlocked swatches built on first load, one per drawn integer. */
  function InitialPalette(seeds: seq<nat>): (p: seq<Swatch>)
    requires |seeds| == Size && InRange(seeds)
    ensures |p| == Size && WellFormed(p)
    ensures forall i :: 0 <= i < Size ==> !p[i].locked && ParseColor(p[i].color) == Some(seeds[i])
  {
    seq(Size, i requires 0 <= i < Size => Swatch(RandomHexColor(seeds[i]), false))
  }

  /** The palette after `generateInitialPalette`: seeded only when it was empty. */
  function Initialized(p: seq<Swatch>, seeds: seq<nat>): (r: seq<Swatch>)
    requires |seeds| == Size && InRange(seeds)
    ensures p != [] ==> r == p
    ensures p == [] ==> |r| == Size && WellFormed(r) && forall i :: 0 <= i < |r| ==> !r[i].locked
  {
    if p == [] then InitialPalette(seeds) else p
  }

  /** Seeding twice is seeding once: the second call finds a non-empty palette. */
  lemma InitializedIdempotent(p: seq<Swatch>, first: seq<nat>, second: seq<nat>)
    requires |first| == Size && InRange(first)
    requires |second| == Size && InRange(second)
    ensures Initialized(Initialized(p, first), second) == Initialized(p, first)
  {
  }

  /** One swatch under `handleGeneratePalette`: kept if locked, recoloured otherwise. */
  function Regenerate(s: Swatch, seed: nat): (r: Swatch)
    requires seed < RandomRange
    ensures r.locked == s.locked
    ensures s.locked ==> r == s
    ensures !s.locked ==> ParseColor(r.color) == Some(seed)
  {
    if s.locked then s else s.(color := RandomHexColor(seed))
  }

  /** The palette after `handleGeneratePalette`, position `i` using `draws[i]`. */
  function Regenerated(p: seq<Swatch>, draws: seq<nat>): (r: seq<Swatch>)
    requires |draws| == |p| && InRange(draws)
    ensures |r| == |p|
    ensures forall i :: 0 <= i < |p| ==> r[i].locked == p[i].locked
    ensures forall i :: 0 <= i < |p| && p[i].locked ==> r[i] == p[i]
    ensures forall i :: 0 <= i < |p| && !p[i].locked ==> ParseColor(r[i].color) == Some(draws[i])
  {
    if p == [] then [] else [Regenerate(p[0], draws[0])] + Regenerated(p[1..], draws[1..])
  }

  /** Regenerating an empty palette leaves it empty: regeneration never seeds. */
  lemma RegeneratedEmpty()
    ensures Regenerated([], []) == []
  {
  }

  /** Regeneration keeps every colour well-formed. */
  lemma RegeneratedWellFormed(p: seq<Swatch>, draws: seq<nat>)
    requires |draws| == |p| && InRange(draws) && WellFormed(p)
    ensures WellFormed(Regenerated(p, draws))
  {
  }

  /** The palette after `toggleLock(index)`. */
  function Toggled(p: seq<Swatch>, index: nat): (r: seq<Swatch>)
    requires index < |p|
    ensures |r| == |p|
    ensures r[index].locked == !p[index].locked && r[index].color == p[index].color
    ensures forall j :: 0 <= j < |p| && j != index ==> r[j] == p[j]
  {
    p[index := p[index].(locked := !p[index].locked)]
  }

  /** Toggling the same lock twice restores the palette. */
  lemma ToggledTwice(p: seq<Swatch>, index: nat)
    requires index < |p|
    ensures Toggled(Toggled(p, index), index) == p
  {
  }

  /** Toggling a lock keeps every colour, hence well-formedness. */
  lemma ToggledWellFormed(p: seq<Swatch>, index: nat)
    requires index < |p| && WellFormed(p)
    ensures WellFormed(Toggled(p, index))
  {
  }
}
