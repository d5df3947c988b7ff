/** The texture table: up to eight textures, each an opaque renderer
    handle and, when the copy succeeded, a 64 x 64 pixel buffer with a
    loaded flag, read by the raycaster. Loading from disk is abstracted as
    one outcome per slot. */
module Textures {
  import opened Wrappers
  import opened Pixels

  const MaxTextures := 8
  const TextureSize := 64

  /** A texture's pixels, row by row: `TextureSize * TextureSize` words. */
  type TexturePixels = s: seq<Pixel> | |s| == TextureSize * TextureSize
    witness seq(TextureSize * TextureSize, _ => Grey)

  /** A renderer texture handle; the model only tells handles apart. */
  type Handle = nat

  /** What loading slot i produced: either one of the failures that stops
      the loading loop (the file does not load, does not convert, or no
      renderer texture is created), or a renderer texture together with the
      copied pixels, absent when the pixel buffer could not be allocated. */
  datatype LoadOutcome = Stop | Created(handle: Handle, buffer: Option<TexturePixels>)

  /** The outcome for slot i; slots the sequence does not cover stop. */
  function OutcomeAt(outcomes: seq<LoadOutcome>, i: int): LoadOutcome
  {
    if 0 <= i < |outcomes| then outcomes[i] else Stop
  }

  /** The slot at which loading from slot i on stops: the first slot whose
      outcome is a failure, or `MaxTextures` when every slot loads. */
  function LoadedUpTo(outcomes: seq<LoadOutcome>, i: nat): (n: nat)
    requires i <= MaxTextures
    ensures i <= n <= MaxTextures
    ensures forall j :: i <= j < n ==> OutcomeAt(outcomes, j).Created?
    ensures n < MaxTextures ==> OutcomeAt(outcomes, n).Stop?
    decreases MaxTextures - i
  {
    if i == MaxTextures || OutcomeAt(outcomes, i).Stop? then i
    else LoadedUpTo(outcomes, i + 1)
  }

  class TextureManager {
    const textures: array<Option<Handle>>
    const pixels: array<Option<TexturePixels>>
    const loaded: array<bool>
    var count: int

    /** The fixed storage; `count` slots loaded; a slot is flagged loaded
        exactly when it holds a buffer; no slot from `count` on holds
        anything. */
    ghost predicate Valid()
      reads this, textures, pixels, loaded
    {
      && textures.Length == MaxTextures && pixels.Length == MaxTextures && loaded.Length == MaxTextures
      && 0 <= count <= MaxTextures
      && (forall i :: 0 <= i < MaxTextures ==> (loaded[i] <==> pixels[i].Some?))
      && (forall i :: count <= i < MaxTextures ==> textures[i].None? && pixels[i].None? && !loaded[i])
    }

    /** An empty table, as the zero-initialised globals are at start-up. */
    constructor ()
      ensures Valid() && count == 0
      ensures fresh(textures) && fresh(pixels) && fresh(loaded)
    {
      textures := new Option<Handle>[MaxTextures](_ => None);
      pixels := new Option<TexturePixels>[MaxTextures](_ => None);
      loaded := new bool[MaxTextures](_ => false);
      count := 0;
    }

    /** `textures_init`: every slot is cleared, then slots are loaded in
        order until the first failure; each created slot holds its handle
        and, when the copy succeeded, its pixels with the loaded flag set.
        The number of created slots is stored and returned. */
    method Init(outcomes: seq<LoadOutcome>) returns (n: int)
      requires textures.Length == MaxTextures && pixels.Length == MaxTextures && loaded.Length == MaxTextures
      modifies this, textures, pixels, loaded
      ensures Valid()
      ensures n == count == LoadedUpTo(outcomes, 0)
      ensures forall i :: 0 <= i < count ==>
                && textures[i] == Some(OutcomeAt(outcomes, i).handle)
                && pixels[i] == OutcomeAt(outcomes, i).buffer
                && loaded[i] == OutcomeAt(outcomes, i).buffer.Some?
    {
      count := 0;
      ClearSlots(MaxTextures);
      var i := 0;
      while i < MaxTextures && OutcomeAt(outcomes, i).Created?
        invariant 0 <= i <= MaxTextures && count == i
        invariant LoadedUpTo(outcomes, 0) == LoadedUpTo(outcomes, i)
        invariant forall k :: 0 <= k < i ==>
                    && textures[k] == Some(OutcomeAt(outcomes, k).handle)
                    && pixels[k] == OutcomeAt(outcomes, k).buffer
                    && loaded[k] == OutcomeAt(outcomes, k).buffer.Some?
        invariant forall k :: i <= k < MaxTextures ==> textures[k].None? && pixels[k].None? && !loaded[k]
      {
        LoadSlot(i, OutcomeAt(outcomes, i));
        count := count + 1;
        i := i + 1;
      }
      n := count;
    }

    /** One pass of the loading loop for a created outcome: the handle is
        stored, and the pixels with the loaded flag when they were copied. */
    method LoadSlot(i: int, o: LoadOutcome)
      requires textures.Length == MaxTextures && pixels.Length == MaxTextures && loaded.Length == MaxTextures
      requires 0 <= i < MaxTextures && o.Created? && textures[i].None? && pixels[i].None? && !loaded[i]
      modifies textures, pixels, loaded
      ensures textures[i] == Some(o.handle) && pixels[i] == o.buffer && loaded[i] == o.buffer.Some?
      ensures forall k :: 0 <= k < MaxTextures && k != i ==>
                textures[k] == old(textures[k]) && pixels[k] == old(pixels[k]) && loaded[k] == old(loaded[k])
    {
      textures[i] := Some(o.handle);
      if o.buffer.Some? {
        pixels[i] := o.buffer;
        loaded[i] := true;
      }
    }

    /** The reset loop shared by init and destroy: slots below n lose
        their handle, their buffer and their loaded flag; the rest are kept. */
    method ClearSlots(n: int)
      requires textures.Length == MaxTextures && pixels.Length == MaxTextures && loaded.Length == MaxTextures
      requires 0 <= n <= MaxTextures
      modifies textures, pixels, loaded
      ensures forall k :: 0 <= k < n ==> textures[k].None? && pixels[k].None? && !loaded[k]
      ensures forall k :: n <= k < MaxTextures ==>
                textures[k] == old(textures[k]) && pixels[k] == old(pixels[k]) && loaded[k] == old(loaded[k])
    {
      for i := 0 to n
        invariant forall k :: 0 <= k < i ==> textures[k].None? && pixels[k].None? && !loaded[k]
        invariant forall k :: i <= k < MaxTextures ==>
                    textures[k] == old(textures[k]) && pixels[k] == old(pixels[k]) && loaded[k] == old(loaded[k])
      {
        textures[i] := None;
        pixels[i] := None;
        loaded[i] := false;
      }
    }

    /** `textures_destroy`: every slot below the old count loses its
        handle, its buffer and its loaded flag, and the count drops to 0. */
    method Destroy()
      requires Valid()
      modifies this, textures, pixels, loaded
      ensures Valid() && count == 0
      ensures forall i :: 0 <= i < MaxTextures ==> textures[i].None? && pixels[i].None? && !loaded[i]
    {
      ClearSlots(count);
      count := 0;
    }

    /** `textures_get`: the handle of a created slot, absent for an id
        outside [0, count). */
    function Get(id: int): (h: Option<Handle>)
      reads this, textures, pixels, loaded
      requires Valid()
      ensures !(0 <= id < count) ==> h.None?
      ensures 0 <= id < count ==> h == textures[id]
    {
      if id >= 0 && id < count then textures[id] else None
    }

    /** `textures_get_pixels`: the buffer of a slot flagged loaded, absent
        for an id outside [0, 8) or a slot not flagged. */
    function GetPixels(id: int): (p: Option<TexturePixels>)
      reads this, textures, pixels, loaded
      requires Valid()
      ensures p.Some? <==> 0 <= id < MaxTextures && loaded[id]
      ensures p.Some? ==> p == pixels[id]
    {
      if id >= 0 && id < MaxTextures && loaded[id] then pixels[id] else None
    }

    /** The buffers of the eight slots as a value. */
    ghost function View(): (v: seq<Option<TexturePixels>>)
      reads this, pixels
      ensures |v| == pixels.Length
    {
      pixels[..]
    }

    /** `textures_get_pixels` is the same lookup in the view. */
    lemma GetPixelsView(id: int)
      requires Valid()
      ensures GetPixels(id) == PixelsOf(View(), id)
    {
    }

    /** Only created slots can yield pixels, and every created slot whose
        buffer was allocated does. */
    lemma GetPixelsOnlyBelowCount(id: int)
      requires Valid()
      ensures GetPixels(id).Some? ==> 0 <= id < count
      ensures 0 <= id < MaxTextures && pixels[id].Some? ==> GetPixels(id) == pixels[id]
    {
    }
  }

  /** The buffer of slot id in a view of the table: absent outside it. */
  function PixelsOf(v: seq<Option<TexturePixels>>, id: int): Option<TexturePixels>
  {
    if 0 <= id < |v| then v[id] else None
  }

  /** Loading stops at the first failure: with every outcome created, all
      eight slots load; with the first outcome a failure, none does. */
  lemma {:induction false} LoadedUpToExtremes(outcomes: seq<LoadOutcome>)
    ensures (forall i :: 0 <= i < MaxTextures ==> OutcomeAt(outcomes, i).Created?) ==> LoadedUpTo(outcomes, 0) == MaxTextures
    ensures OutcomeAt(outcomes, 0).Stop? ==> LoadedUpTo(outcomes, 0) == 0
  {
  }
}
