/** The name-driven set-up of the detail encoder: which attention processor
    each UNet attention layer gets and with which hidden size, and which
    CLIP hidden states feed the resampler. */
module EncoderPlus {
  import opened Wrappers
  import opened PyStr

  /** An attention processor: the plain one, or an SSR processor. */
  datatype Processor = Plain | Ssr(hiddenSize: int, crossAttentionDim: int, scale: int)

  const StringIndexMessage: string := "string index out of range"
  const ListIndexMessage: string := "list index out of range"

  /** `int(c)` of one character. */
  function ParseDigit(c: char): (r: Result<nat>)
    ensures r.Ok? <==> IsDigit(c)
    ensures r.Ok? ==> r.value < 10 && DigitChar(r.value) == c
    ensures r.Err? ==> r.msg == IntLiteralMessage([c])
  {
    if IsDigit(c) then Ok(DigitValue(c))
    else Err(IntLiteralMessage([c]))
  }

  function Reversed(s: seq<int>): (r: seq<int>)
    ensures |r| == |s| && forall i :: 0 <= i < |s| ==> r[i] == s[|s| - 1 - i]
  {
    seq(|s|, i requires 0 <= i < |s| => s[|s| - 1 - i])
  }

  /** `channels[i]` for a block id, or the `IndexError`. */
  function At(channels: seq<int>, i: nat): (r: Result<int>)
    ensures r.Ok? <==> i < |channels|
    ensures r.Ok? ==> r.value == channels[i]
  {
    if i < |channels| then Ok(channels[i]) else Err(ListIndexMessage)
  }

  /** The block id: the one character after the prefix. */
  function BlockId(name: string, prefixLength: nat): (r: Result<nat>)
    ensures r.Ok? <==> prefixLength < |name| && IsDigit(name[prefixLength])
    ensures r.Ok? ==> r.value == DigitValue(name[prefixLength])
    ensures |name| <= prefixLength ==> r == Err(StringIndexMessage)
  {
    if prefixLength < |name| then ParseDigit(name[prefixLength]) else Err(StringIndexMessage)
  }

  /** The hidden size chosen for a processor name from `block_out_channels`. */
  function HiddenSize(name: string, channels: seq<int>): (r: Result<int>)
    ensures StartsWith(name, "mid_block") ==>
              r == (if |channels| > 0 then Ok(channels[|channels| - 1]) else Err(ListIndexMessage))
    ensures !StartsWith(name, "mid_block") && !StartsWith(name, "up_blocks") && !StartsWith(name, "down_blocks") ==>
              r == At(channels, 0)
  {
    if StartsWith(name, "mid_block") then
      if |channels| > 0 then Ok(channels[|channels| - 1]) else Err(ListIndexMessage)
    else if StartsWith(name, "up_blocks") then
      match BlockId(name, |"up_blocks."|)
      case Err(e) => Err(e)
      case Ok(id) => At(Reversed(channels), id)
    else if StartsWith(name, "down_blocks") then
      match BlockId(name, |"down_blocks."|)
      case Err(e) => Err(e)
      case Ok(id) => At(channels, id)
    else At(channels, 0)
  }

  /** "up_blocks.<d>..." counts blocks from the top: the `d`-th entry of the
      reversed channel list. */
  lemma UpBlockSize(d: nat, rest: string, channels: seq<int>)
    requires d < 10 && d < |channels|
    ensures HiddenSize("up_blocks." + [DigitChar(d)] + rest, channels) == Ok(channels[|channels| - 1 - d])
  {
    var name := "up_blocks." + [DigitChar(d)] + rest;
    assert name[..10] == "up_blocks.";
    assert StartsWith(name, "up_blocks");
    assert !StartsWith(name, "mid_block") by { assert name[0] == 'u'; }
    assert name[10] == DigitChar(d);
  }

  /** "down_blocks.<d>..." takes the `d`-th entry of the channel list. */
  lemma DownBlockSize(d: nat, rest: string, channels: seq<int>)
    requires d < 10 && d < |channels|
    ensures HiddenSize("down_blocks." + [DigitChar(d)] + rest, channels) == Ok(channels[d])
  {
    var name := "down_blocks." + [DigitChar(d)] + rest;
    assert name[..12] == "down_blocks.";
    assert StartsWith(name, "down_blocks");
    assert !StartsWith(name, "mid_block") && !StartsWith(name, "up_blocks") by { assert name[0] == 'd'; }
    assert name[12] == DigitChar(d);
  }

  /** An "up_blocks" name fails exactly when the character after the
      prefix is missing (`IndexError`), is not a digit (`ValueError` from
      `int`), or names a block past the end of the channel list
      (`IndexError`). */
  lemma UpBlockFails(name: string, channels: seq<int>)
    requires StartsWith(name, "up_blocks")
    ensures HiddenSize(name, channels).Err? <==>
              |name| <= 10 || !IsDigit(name[10]) || DigitValue(name[10]) >= |channels|
    ensures |name| <= 10 ==> HiddenSize(name, channels) == Err(StringIndexMessage)
    ensures 10 < |name| && IsDigit(name[10]) && DigitValue(name[10]) >= |channels| ==>
              HiddenSize(name, channels) == Err(ListIndexMessage)
  {
    assert !StartsWith(name, "mid_block") by { assert name[0] == "up_blocks"[0]; }
  }

  /** The same for a "down_blocks" name. */
  lemma DownBlockFails(name: string, channels: seq<int>)
    requires StartsWith(name, "down_blocks")
    ensures HiddenSize(name, channels).Err? <==>
              |name| <= 12 || !IsDigit(name[12]) || DigitValue(name[12]) >= |channels|
    ensures |name| <= 12 ==> HiddenSize(name, channels) == Err(StringIndexMessage)
    ensures 12 < |name| && IsDigit(name[12]) && DigitValue(name[12]) >= |channels| ==>
              HiddenSize(name, channels) == Err(ListIndexMessage)
  {
    assert !StartsWith(name, "mid_block") && !StartsWith(name, "up_blocks") by {
      assert name[0] == "down_blocks"[0];
    }
  }

  /** Only the first digit of a block id is read: "down_blocks.12..." is
      block 1. */
  lemma TwoDigitIdReadsFirst(rest: string, channels: seq<int>)
    requires |channels| > 1
    ensures HiddenSize("down_blocks.1" + ['2'] + rest, channels) == Ok(channels[1])
  {
    assert "down_blocks.1" + ['2'] + rest == "down_blocks." + [DigitChar(1)] + (['2'] + rest);
    DownBlockSize(1, ['2'] + rest, channels);
  }

  /** The processor for one name. `configCross` is
      `unet.config.cross_attention_dim`. */
  function ProcessorFor(name: string, channels: seq<int>, configCross: Option<int>): (r: Result<Processor>)
    ensures r.Ok? <==> HiddenSize(name, channels).Ok?
    ensures r.Ok? && (EndsWith(name, "attn1.processor") || configCross.None?) ==> r.value == Plain
    ensures r.Ok? && !EndsWith(name, "attn1.processor") && configCross.Some? ==>
              r.value == Ssr(HiddenSize(name, channels).value, 1024, 1)
  {
    var cross := if EndsWith(name, "attn1.processor") then None else configCross;
    match HiddenSize(name, channels)
    case Err(e) => Err(e)
    case Ok(h) => if cross.None? then Ok(Plain) else Ok(Ssr(h, 1024, 1))
  }

  /** The dictionary after the loop has seen `names`, or the first error. */
  function Assign(names: seq<string>, channels: seq<int>, configCross: Option<int>): Result<map<string, Processor>>
    decreases |names|
  {
    if |names| == 0 then Ok(map[])
    else
      var n := names[|names| - 1];
      match Assign(names[..|names| - 1], channels, configCross)
      case Err(e) => Err(e)
      case Ok(m) =>
        match ProcessorFor(n, channels, configCross)
        case Err(e) => Err(e)
        case Ok(p) => Ok(m[n := p])
  }

  /** Every name gets exactly one entry, and that entry is its processor. */
  lemma {:induction false} AssignCovers(names: seq<string>, channels: seq<int>, configCross: Option<int>)
    requires Assign(names, channels, configCross).Ok?
    ensures var m := Assign(names, channels, configCross).value;
            m.Keys == set n | n in names
    ensures var m := Assign(names, channels, configCross).value;
            forall k :: k in m ==> ProcessorFor(k, channels, configCross) == Ok(m[k])
    decreases |names|
  {
    if |names| > 0 {
      var front := names[..|names| - 1];
      AssignCovers(front, channels, configCross);
      assert names == front + [names[|names| - 1]];
      assert (set n | n in names) == (set n | n in front) + {names[|names| - 1]};
    }
  }

  lemma {:induction false} AssignErrStays(names: seq<string>, channels: seq<int>, configCross: Option<int>, j: nat)
    requires j <= |names| && Assign(names[..j], channels, configCross).Err?
    ensures Assign(names, channels, configCross) == Assign(names[..j], channels, configCross)
    decreases |names| - j
  {
    if j < |names| {
      assert names[..j + 1][..j] == names[..j];
      AssignErrStays(names, channels, configCross, j + 1);
    } else {
      assert names[..j] == names;
    }
  }

  /** The loop over `unet.attn_processors.keys()`, filling `attn_procs`. */
  method InstallProcessors(names: seq<string>, channels: seq<int>, configCross: Option<int>)
    returns (r: Result<map<string, Processor>>)
    ensures r == Assign(names, channels, configCross)
  {
    var attnProcs: map<string, Processor> := map[];
    var k := 0;
    while k < |names|
      invariant 0 <= k <= |names|
      invariant Assign(names[..k], channels, configCross) == Ok(attnProcs)
    {
      assert names[..k + 1][..k] == names[..k];
      var p := ProcessorFor(names[k], channels, configCross);
      if p.Err? {
        AssignErrStays(names, channels, configCross, k + 1);
        return Err(p.msg);
      }
      attnProcs := attnProcs[names[k] := p.value];
      k := k + 1;
    }
    assert names[..k] == names;
    r := Ok(attnProcs);
  }

  // ---------------------------------------------------------------------
  // `outputs["hidden_states"][2::2]`
  // ---------------------------------------------------------------------

  /** Python's `s[2::2]`: the entries at 2, 4, 6, ... */
  function EveryOtherFromTwo<T>(s: seq<T>): (r: seq<T>)
    ensures |r| == if |s| <= 2 then 0 else (|s| - 1) / 2
    ensures forall k :: 0 <= k < |r| ==> r[k] == s[2 + 2 * k]
    decreases |s|
  {
    if |s| <= 2 then [] else [s[2]] + EveryOtherFromTwo(s[2..])
  }

  /** Every even index from 2 on is taken, at position `i / 2 - 1`. */
  lemma EvenLayersTaken<T>(s: seq<T>, i: nat)
    requires 2 <= i < |s| && i % 2 == 0
    ensures i / 2 - 1 < |EveryOtherFromTwo(s)| && EveryOtherFromTwo(s)[i / 2 - 1] == s[i]
  {
  }

  /** With CLIP ViT-L's 25 hidden states (the embeddings and 24 layers),
      12 states are used. */
  lemma TwelveStatesOfTwentyFive<T>(s: seq<T>)
    requires |s| == 25
    ensures |EveryOtherFromTwo(s)| == 12
  {
  }
}
