/**
  The palette generator page: the component's state fields and the handlers that
  update them. `llmDescription` holds whatever `JSON.parse` produced, `Null` meaning
  "no description"; the error and copied-colour fields are `None` for `null`.

  `describePalette` runs in two steps separated by the network round trip:
  `BeginDescribe` is the part before `await`, `ResolveDescribe` the part after it.
  Between the two the user may regenerate, toggle locks or copy.
*/
module PalettePage {
  import opened Wrappers
  import opened HexColor
  import opened PaletteStore
  import opened JsValue
  import opened DescribeClient

  class PaletteGenerator {
    var palette: seq<Swatch>
    var llmDescription: Json
    var isLoadingLLM: bool
    var llmError: Option<string>
    var copiedColor: Option<string>

    /**
      What every reachable state satisfies: the palette is empty or has five
      well-formed swatches, nothing is described or loading before it is seeded,
      a request in flight has cleared the old result, and a description and an
      error are never shown together.
    */
    ghost predicate Valid()
      reads this
    {
      && (palette == [] || |palette| == Size)
      && WellFormed(palette)
      && (palette == [] ==> llmDescription == Null && !isLoadingLLM)
      && (isLoadingLLM ==> llmDescription == Null && llmError == None)
      && !(llmDescription != Null && llmError.Some?)
    }

    /**
      The describe button is disabled while loading or while the palette is empty.
      Once a request is sent it stays disabled until that request settles, so at
      most one request is in flight.
    */
    predicate DescribeDisabled()
      reads this
    {
      isLoadingLLM || |palette| == 0
    }

    /** The initial values of the five `useState` hooks. */
    constructor ()
      ensures Valid()
      ensures palette == [] && llmDescription == Null && !isLoadingLLM
      ensures llmError == None && copiedColor == None
    {
      palette := [];
      llmDescription := Null;
      isLoadingLLM := false;
      llmError := None;
      copiedColor := None;
    }

    /** `generateInitialPalette`: seeds five unlocked swatches only into an empty palette. */
    method GenerateInitialPalette(seeds: seq<nat>)
      requires Valid()
      requires |seeds| == Size && InRange(seeds)
      modifies this
      ensures Valid()
      ensures palette == Initialized(old(palette), seeds)
      ensures old(palette) != [] ==> palette == old(palette)
      ensures old(palette) == [] ==> |palette| == Size && forall i :: 0 <= i < Size ==> !palette[i].locked
      ensures llmDescription == old(llmDescription) && isLoadingLLM == old(isLoadingLLM)
      ensures llmError == old(llmError) && copiedColor == old(copiedColor)
    {
      if palette == [] {
        palette := InitialPalette(seeds);
      }
    }

    /** `handleGeneratePalette`: recolours the unlocked swatches and clears the description and error. */
    method HandleGeneratePalette(draws: seq<nat>)
      requires Valid()
      requires |draws| == |palette| && InRange(draws)
      modifies this
      ensures Valid()
      ensures palette == Regenerated(old(palette), draws)
      ensures |palette| == |old(palette)|
      ensures forall i :: 0 <= i < |palette| && old(palette)[i].locked ==> palette[i] == old(palette)[i]
      ensures forall i :: 0 <= i < |palette| && !old(palette)[i].locked ==>
        !palette[i].locked && ParseColor(palette[i].color) == Some(draws[i])
      ensures llmDescription == Null && llmError == None
      ensures isLoadingLLM == old(isLoadingLLM) && copiedColor == old(copiedColor)
    {
      RegeneratedWellFormed(palette, draws);
      palette := Regenerated(palette, draws);
      llmDescription := Null;
      llmError := None;
    }

    /** `toggleLock(index)`: flips the lock of one swatch. */
    method ToggleLock(index: nat)
      requires Valid()
      requires index < |palette|
      modifies this
      ensures Valid()
      ensures palette == Toggled(old(palette), index)
      ensures |palette| == |old(palette)|
      ensures palette[index].locked == !old(palette)[index].locked
      ensures palette[index].color == old(palette)[index].color
      ensures forall j :: 0 <= j < |palette| && j != index ==> palette[j] == old(palette)[j]
      ensures llmDescription == old(llmDescription) && isLoadingLLM == old(isLoadingLLM)
      ensures llmError == old(llmError) && copiedColor == old(copiedColor)
    {
      ToggledWellFormed(palette, index);
      palette := Toggled(palette, index);
    }

    /** `handleCopy(color)`, up to the clipboard write and the two-second reset. */
    method HandleCopy(color: string)
      requires Valid()
      modifies this
      ensures Valid()
      ensures copiedColor == Some(color)
      ensures palette == old(palette) && llmDescription == old(llmDescription)
      ensures isLoadingLLM == old(isLoadingLLM) && llmError == old(llmError)
    {
      copiedColor := Some(color);
    }

    /**
      `describePalette` up to the `fetch`: on an empty palette it only reports the
      error; otherwise it starts loading, clears the old result and returns the
      request body it posts to the proxy.
    */
    method BeginDescribe() returns (request: Option<Json>)
      requires Valid()
      modifies this
      ensures Valid()
      ensures request.Some? <==> old(palette) != []
      ensures old(palette) == [] ==>
        && llmError == Some(EmptyPaletteMessage)
        && llmDescription == old(llmDescription) && isLoadingLLM == old(isLoadingLLM)
      ensures old(palette) != [] ==>
        && request == Some(RequestBody(Prompt(old(palette))))
        && isLoadingLLM && llmDescription == Null && llmError == None
      ensures request.Some? ==> DescribeDisabled()
      ensures palette == old(palette) && copiedColor == old(copiedColor)
    {
      if palette == [] {
        llmError := Some(EmptyPaletteMessage);
        return None;
      }
      isLoadingLLM := true;
      llmDescription := Null;
      llmError := None;
      request := Some(RequestBody(Prompt(palette)));
    }

    /**
      `describePalette` after the `await`: the request in flight settles into a
      description or an error message, and loading ends (the `finally`).
    */
    method ResolveDescribe(outcome: FetchOutcome, parse: Json -> Option<Json>)
      requires Valid()
      requires isLoadingLLM
      modifies this
      ensures Valid()
      ensures !isLoadingLLM
      ensures Settle(outcome, parse).Described? ==>
        llmDescription == Settle(outcome, parse).description && llmError == None
      ensures Settle(outcome, parse).Reported? ==>
        llmError == Some(Settle(outcome, parse).message) && llmDescription == Null
      ensures palette == old(palette) && copiedColor == old(copiedColor)
    {
      var settled := Settle(outcome, parse);
      match settled {
        case Described(description) =>
          llmDescription := description;
        case Reported(message) =>
          llmError := Some(message);
      }
      isLoadingLLM := false;
    }

    /** The whole `describePalette` handler when nothing else runs during the round trip. */
    method DescribePalette(outcome: FetchOutcome, parse: Json -> Option<Json>) returns (request: Option<Json>)
      requires Valid()
      modifies this
      ensures Valid()
      ensures request.Some? <==> old(palette) != []
      ensures old(palette) == [] ==>
        && llmError == Some(EmptyPaletteMessage)
        && llmDescription == old(llmDescription) && isLoadingLLM == old(isLoadingLLM)
      ensures old(palette) != [] ==>
        && request == Some(RequestBody(Prompt(old(palette))))
        && !isLoadingLLM
        && (Settle(outcome, parse).Described? ==> llmDescription == Settle(outcome, parse).description && llmError == None)
        && (Settle(outcome, parse).Reported? ==> llmError == Some(Settle(outcome, parse).message) && llmDescription == Null)
      ensures !(llmDescription != Null && llmError.Some?)
      ensures palette == old(palette) && copiedColor == old(copiedColor)
    {
      request := BeginDescribe();
      if request.Some? {
        ResolveDescribe(outcome, parse);
      }
    }
  }

  /** A session: first load, a lock, a regeneration and a failed describe call. */
  method Session(seeds: seq<nat>, draws: seq<nat>)
    requires |seeds| == Size && InRange(seeds)
    requires |draws| == Size && InRange(draws)
  {
    var page := new PaletteGenerator();
    page.GenerateInitialPalette(seeds);
    page.GenerateInitialPalette(draws);
    assert page.palette == InitialPalette(seeds);
    page.ToggleLock(2);
    var locked := page.palette[2];
    page.HandleGeneratePalette(draws);
    assert page.palette[2] == locked;
    var request := page.BeginDescribe();
    assert request.Some? && page.isLoadingLLM;
    page.ResolveDescribe(Rejected, _ => None);
    assert page.llmError == Some(CallFailedMessage) && !page.isLoadingLLM;
  }
}
