/** The append-only recovery log: length-framed envelopes, replayed through `apply_recovery`. */
module RecoveryLog {
  import opened Wrappers
  import opened Bytes
  import opened Outputs
  import opened Database
  import opened BackendStates
  import RefineOutputs

  const VERSION: byte := 1
  const MAX_ENTRY: nat := 1024 * 1024 + 128 * 1024

  /** The wire format of the output inside an entry. */
  datatype OutputCodec = OutputCodec(encode: Output -> Option<seq<byte>>, decode: seq<byte> -> Option<Output>)

  /** The refine output's own wire format. */
  function CodecOf(p: RefineOutputs.Payloads): OutputCodec {
    OutputCodec(
      o => var r := RefineOutputs.EncodeOutput(o); if r.Ok? then Some(r.value) else None,
      b => var r := RefineOutputs.DecodeOutput(p, b); if r.Ok? then Some(r.value) else None)
  }

  function Framed(e: Envelope, output: seq<byte>): seq<byte> {
    [VERSION] + LE(e.service, 4) + e.key + LE(|output|, 4) + output
  }

  function EncodeEnvelope(oc: OutputCodec, e: Envelope): Option<seq<byte>> {
    var output := oc.encode(e.output);
    if output.None? || |output.value| > U32_MAX then None else Some(Framed(e, output.value))
  }

  /** `EnvelopeReader`. */
  class EnvelopeReader {
    const bytes: seq<byte>
    var offset: nat

    ghost predicate Valid()
      reads this
    {
      offset <= |bytes|
    }

    constructor (bytes: seq<byte>)
      ensures Valid() && this.bytes == bytes && offset == 0
    {
      this.bytes, offset := bytes, 0;
    }

    method Take(n: nat) returns (r: Option<seq<byte>>)
      requires Valid()
      modifies this
      ensures Valid()
      ensures r.Some? <==> old(offset) + n <= |bytes|
      ensures r.Some? ==> offset == old(offset) + n && r.value == bytes[old(offset)..offset]
      ensures r.None? ==> offset == old(offset)
    {
      if n > |bytes| - offset {
        return None;
      }
      r := Some(bytes[offset..offset + n]);
      offset := offset + n;
    }

    method Remaining() returns (n: nat)
      requires Valid()
      ensures n == |bytes| - offset
    {
      n := |bytes| - offset;
    }
  }

  /** `RecoveryEnvelopeV1::decode`, check by check. */
  function DecodeEnvelope(oc: OutputCodec, b: seq<byte>): Result<Envelope, BackendError> {
    if |b| > MAX_ENTRY then Err(EntryTooLarge)
    else if |b| < 1 then Err(TruncatedLog)
    else if b[0] != VERSION then Err(InvalidEnvelope)
    else if |b| < 41 then Err(TruncatedLog)
    else
      var n := FromLE(b[37..41]);
      if n > MAX_ENTRY then Err(EntryTooLarge)
      else if |b| < 41 + n then Err(TruncatedLog)
      else
        var output := oc.decode(b[41..41 + n]);
        if output.None? then Err(Wire)
        else if |b| != 41 + n then Err(InvalidEnvelope)
        else ServiceFits(b[1..5]); Ok(Envelope(FromLE(b[1..5]), b[5..37], output.value))
  }

  lemma {:induction false} ServiceFits(b: seq<byte>)
    requires |b| == 4
    ensures FromLE(b) <= U32_MAX
  {
    Pow256Values();
    FromLEBound(b);
  }

  method Decode(oc: OutputCodec, b: seq<byte>) returns (r: Result<Envelope, BackendError>)
    ensures r == DecodeEnvelope(oc, b)
  {
    hide FromLE;
    if |b| > MAX_ENTRY {
      return Err(EntryTooLarge);
    }
    var reader := new EnvelopeReader(b);
    var version := reader.Take(1);
    if version.None? { return Err(TruncatedLog); }
    if version.value[0] != VERSION { return Err(InvalidEnvelope); }
    var service := reader.Take(4);
    if service.None? { return Err(TruncatedLog); }
    var key := reader.Take(32);
    if key.None? { return Err(TruncatedLog); }
    var length := reader.Take(4);
    if length.None? { return Err(TruncatedLog); }
    var n := FromLE(length.value);
    if n > MAX_ENTRY { return Err(EntryTooLarge); }
    var bytes := reader.Take(n);
    if bytes.None? { return Err(TruncatedLog); }
    var output := oc.decode(bytes.value);
    if output.None? { return Err(Wire); }
    var left := reader.Remaining();
    if left != 0 { return Err(InvalidEnvelope); }
    ServiceFits(service.value);
    return Ok(Envelope(FromLE(service.value), key.value, output.value));
  }

  lemma {:induction false} FramedParts(e: Envelope, out: seq<byte>)
    requires |e.key| == 32 && |out| <= U32_MAX
    ensures var b := Framed(e, out);
      && |b| == 41 + |out| && b[0] == VERSION && b[5..37] == e.key && b[41..] == out
      && FromLE(b[1..5]) == e.service && FromLE(b[37..41]) == |out|
  {
    var b := Framed(e, out);
    assert b[1..5] == LE(e.service, 4) && b[37..41] == LE(|out|, 4);
    Pow256Values();
    FromLEOfLE(e.service, 4);
    FromLEOfLE(|out|, 4);
  }

  /** A byte string decodes to an envelope exactly when it is that envelope's frame around bytes the
      output codec decodes to its output, and is not over the entry limit. */
  lemma {:induction false} EnvelopeInverse(oc: OutputCodec, b: seq<byte>, e: Envelope)
    ensures DecodeEnvelope(oc, b) == Ok(e) <==>
      && |e.key| == 32 && 41 <= |b| <= MAX_ENTRY
      && b == Framed(e, b[41..]) && oc.decode(b[41..]) == Some(e.output)
  {
    hide FromLE, LE;
    if DecodeEnvelope(oc, b) == Ok(e) {
      LEOfFromLE(b[1..5]);
      LEOfFromLE(b[37..41]);
      assert b == [b[0]] + b[1..5] + b[5..37] + b[37..41] + b[41..];
      assert b[41..41 + |b[41..]|] == b[41..];
    }
    if |e.key| == 32 && 41 <= |b| <= MAX_ENTRY && b == Framed(e, b[41..]) && oc.decode(b[41..]) == Some(e.output) {
      FramedParts(e, b[41..]);
      assert b[41..41 + |b[41..]|] == b[41..];
    }
  }

  /** The output codec gives back this envelope's output. */
  ghost predicate RoundTrips(oc: OutputCodec, e: Envelope) {
    |e.key| == 32 && oc.encode(e.output).Some? && oc.decode(oc.encode(e.output).value) == Some(e.output)
  }

  lemma {:induction false} ReadsBackWithin(oc: OutputCodec, e: Envelope)
    requires RoundTrips(oc, e) && EncodeEnvelope(oc, e).Some?
    ensures DecodeEnvelope(oc, EncodeEnvelope(oc, e).value) == Ok(e) <==> |oc.encode(e.output).value| + 41 <= MAX_ENTRY
  {
    var out := oc.encode(e.output).value;
    FramedParts(e, out);
    EnvelopeInverse(oc, Framed(e, out), e);
  }

  /** Appending checks no replay limit and need not: the output encoder's own limits keep every entry that
      encodes below it. */
  lemma {:induction false} EntriesFit(p: RefineOutputs.Payloads, e: Envelope)
    requires |e.key| == 32 && RefineOutputs.Sized(e.output) && EncodeEnvelope(CodecOf(p), e).Some?
    ensures |EncodeEnvelope(CodecOf(p), e).value| <= 1089951 < MAX_ENTRY
  {
    hide RefineOutputs.WriteOutput, RefineOutputs.Canonical, RefineOutputs.DecodeOutput;
    RefineOutputs.EncodedSize(e.output);
    FramedParts(e, CodecOf(p).encode(e.output).value);
  }

  /** An appended envelope is read back as itself if and only if its output is what decoding an output
      yields: dependencies strictly by service, and a payload that decodes and has the committed hash. */
  lemma {:induction false} AppendedReadsBackIff(p: RefineOutputs.Payloads, e: Envelope)
    requires |e.key| == 32 && RefineOutputs.Sized(e.output) && EncodeEnvelope(CodecOf(p), e).Some?
    ensures DecodeEnvelope(CodecOf(p), EncodeEnvelope(CodecOf(p), e).value) == Ok(e) <==>
      RefineOutputs.Ready(p, e.output)
  {
    hide RefineOutputs.EncodeOutput, RefineOutputs.DecodeOutput, RefineOutputs.Ready, DecodeEnvelope;
    var oc := CodecOf(p);
    var out := oc.encode(e.output).value;
    RefineOutputs.ReadsBackIff(p, e.output);
    EntriesFit(p, e);
    FramedParts(e, out);
    assert Framed(e, out)[41..] == out;
    EnvelopeInverse(oc, Framed(e, out), e);
  }

  /** One appended entry: its length, then its bytes. */
  function Frame(entry: seq<byte>): seq<byte> {
    LE(|entry|, 4) + entry
  }

  /** `append_recovery` on the file's contents. */
  function Appended(oc: OutputCodec, log: seq<byte>, e: Envelope): Result<seq<byte>, BackendError> {
    var entry := EncodeEnvelope(oc, e);
    if entry.None? then Err(Wire)
    else if |entry.value| > U32_MAX then Err(EntryTooLarge)
    else Ok(log + Frame(entry.value))
  }

  /** Whether the database takes the write of the n-th entry. */
  type Writes = nat -> bool

  function Later(written: Writes): Writes {
    (k: nat) => written(k + 1)
  }

  /** `replay_recovery_log`: what was applied before the first error stays applied. */
  function Replay(c: Codec, retention: nat, oc: OutputCodec, log: seq<byte>, w: World, written: Writes)
    : (World, Option<BackendError>)
    decreases |log|
  {
    if log == [] then (w, None)
    else if |log| < 4 then (w, Some(TruncatedLog))
    else
      var n := FromLE(log[..4]);
      if n > MAX_ENTRY then (w, Some(EntryTooLarge))
      else if |log| < 4 + n then (w, Some(TruncatedLog))
      else
        var e := DecodeEnvelope(oc, log[4..4 + n]);
        if e.Err? then (w, Some(e.error))
        else
          var r := AppliedRecovery(c, retention, w, e.value, written(0));
          if r.Err? then (w, Some(r.error)) else Replay(c, retention, oc, log[4 + n..], r.value, Later(written))
  }

  method ReplayRecoveryLog(state: BackendState, oc: OutputCodec, bytes: seq<byte>, written: Writes)
    returns (error: Option<BackendError>)
    requires state.Valid()
    modifies state, state.provider, state.database
    ensures (state.Now(), error) == Replay(state.codec, state.Retention(), oc, bytes, old(state.Now()), written)
  {
    hide DecodeEnvelope, AppliedRecovery, FromLE;
    ghost var goal := Replay(state.codec, state.Retention(), oc, bytes, state.Now(), written);
    var offset, rest := 0, written;
    assert bytes[0..] == bytes;
    while offset < |bytes|
      invariant offset <= |bytes|
      invariant Replay(state.codec, state.Retention(), oc, bytes[offset..], state.Now(), rest) == goal
    {
      ghost var log := bytes[offset..];
      if |bytes| < offset + 4 {
        return Some(TruncatedLog);
      }
      var length := FromLE(bytes[offset..offset + 4]);
      assert bytes[offset..offset + 4] == log[..4];
      offset := offset + 4;
      if length > MAX_ENTRY {
        return Some(EntryTooLarge);
      }
      if |bytes| < offset + length {
        return Some(TruncatedLog);
      }
      assert bytes[offset..offset + length] == log[4..4 + length];
      var envelope := Decode(oc, bytes[offset..offset + length]);
      offset := offset + length;
      assert bytes[offset..] == log[4 + length..];
      if envelope.Err? {
        return Some(envelope.error);
      }
      error := state.ApplyRecovery(envelope.value, rest(0));
      if error.Some? {
        return;
      }
      rest := Later(rest);
    }
    error := None;
  }

  /** Envelopes applied one after another until the first error. */
  function ApplyAll(c: Codec, retention: nat, es: seq<Envelope>, w: World, written: Writes)
    : (World, Option<BackendError>)
  {
    if es == [] then (w, None)
    else
      var r := AppliedRecovery(c, retention, w, es[0], written(0));
      if r.Err? then (w, Some(r.error)) else ApplyAll(c, retention, es[1..], r.value, Later(written))
  }

  /** What the database does with the entries after the first `n`. */
  function After(written: Writes, n: nat): Writes {
    if n == 0 then written else After(Later(written), n - 1)
  }

  ghost predicate Replayable(oc: OutputCodec, e: Envelope) {
    RoundTrips(oc, e) && |oc.encode(e.output).value| + 41 <= MAX_ENTRY
  }

  /** The file after appending each envelope in turn to an empty one. */
  function LogOf(oc: OutputCodec, es: seq<Envelope>): seq<byte>
    requires forall k :: 0 <= k < |es| ==> EncodeEnvelope(oc, es[k]).Some?
  {
    if es == [] then [] else Frame(EncodeEnvelope(oc, es[0]).value) + LogOf(oc, es[1..])
  }

  /** Appending an envelope that encodes gives the log of one more envelope, or is refused, exactly when
      the entry's length does not fit its frame. */
  lemma {:induction false} LogGrows(oc: OutputCodec, es: seq<Envelope>, e: Envelope)
    requires forall k :: 0 <= k < |es| ==> EncodeEnvelope(oc, es[k]).Some?
    requires EncodeEnvelope(oc, e).Some?
    ensures Appended(oc, LogOf(oc, es), e) ==
      if |EncodeEnvelope(oc, e).value| <= U32_MAX then Ok(LogOf(oc, es + [e])) else Err(EntryTooLarge)
  {
    hide EncodeEnvelope, Frame;
    var frame := Frame(EncodeEnvelope(oc, e).value);
    if es == [] {
      assert es + [e] == [e] && [e][1..] == [];
      assert LogOf(oc, [e]) == frame + LogOf(oc, []);
      assert [] + frame == frame + [];
    } else {
      LogGrows(oc, es[1..], e);
      assert (es + [e])[1..] == es[1..] + [e];
      var first, rest := Frame(EncodeEnvelope(oc, es[0]).value), LogOf(oc, es[1..]);
      assert (first + rest) + frame == first + (rest + frame);
    }
  }

  lemma {:induction false} ReplayableEncodes(oc: OutputCodec, e: Envelope)
    requires Replayable(oc, e)
    ensures EncodeEnvelope(oc, e).Some?
    ensures var b := EncodeEnvelope(oc, e).value; |b| <= MAX_ENTRY && DecodeEnvelope(oc, b) == Ok(e)
  {
    ReadsBackWithin(oc, e);
    FramedParts(e, oc.encode(e.output).value);
  }

  lemma {:induction false} ReadyReplays(p: RefineOutputs.Payloads, e: Envelope)
    requires RefineOutputs.Ready(p, e.output) && |e.key| == 32
    ensures Replayable(CodecOf(p), e) && EncodeEnvelope(CodecOf(p), e).Some?
  {
    hide RefineOutputs.EncodeOutput, RefineOutputs.DecodeOutput, RefineOutputs.WriteOutput;
    RefineOutputs.OutputReadsBack(p, e.output);
  }

  lemma {:induction false} FrameParts(entry: seq<byte>, rest: seq<byte>)
    requires |entry| <= U32_MAX
    ensures var log := Frame(entry) + rest;
      FromLE(log[..4]) == |entry| && log[4..4 + |entry|] == entry && log[4 + |entry|..] == rest
  {
    var log := Frame(entry) + rest;
    assert log[..4] == LE(|entry|, 4);
    Pow256Values();
    FromLEOfLE(|entry|, 4);
  }

  lemma {:induction false} ReplayFirst(c: Codec, retention: nat, oc: OutputCodec, e: Envelope, rest: seq<byte>,
                                       w: World,
                                         written: Writes)
    requires Replayable(oc, e)
    ensures EncodeEnvelope(oc, e).Some?
    ensures Replay(c, retention, oc, Frame(EncodeEnvelope(oc, e).value) + rest, w, written) ==
      var r := AppliedRecovery(c, retention, w, e, written(0));
      if r.Err? then (w, Some(r.error)) else Replay(c, retention, oc, rest, r.value, Later(written))
  {
    hide DecodeEnvelope, AppliedRecovery, FromLE, EncodeEnvelope;
    ReplayableEncodes(oc, e);
    FrameParts(EncodeEnvelope(oc, e).value, rest);
  }

  /** Replaying a written log is applying its envelopes; bytes after them are replayed from there. */
  lemma {:induction false} ReplayWritten(c: Codec, retention: nat, oc: OutputCodec, es: seq<Envelope>,
                                         rest: seq<byte>, w: World,
                                           written: Writes)
    requires forall k :: 0 <= k < |es| ==> Replayable(oc, es[k]) && EncodeEnvelope(oc, es[k]).Some?
    ensures Replay(c, retention, oc, LogOf(oc, es) + rest, w, written) ==
      var r := ApplyAll(c, retention, es, w, written);
      if r.1.Some? then r else Replay(c, retention, oc, rest, r.0, After(written, |es|))
    decreases |es|
  {
    hide AppliedRecovery, EncodeEnvelope, Replay, Frame;
    if es == [] {
      assert LogOf(oc, es) + rest == rest;
    } else {
      var frame := Frame(EncodeEnvelope(oc, es[0]).value);
      assert LogOf(oc, es) + rest == frame + (LogOf(oc, es[1..]) + rest);
      ReplayFirst(c, retention, oc, es[0], LogOf(oc, es[1..]) + rest, w, written);
      var r := AppliedRecovery(c, retention, w, es[0], written(0));
      if r.Ok? {
        ReplayWritten(c, retention, oc, es[1..], rest, r.value, Later(written));
      }
    }
  }

  /** A log that was written in full rebuilds exactly the state its envelopes led to, a database that
      refuses some write included. */
  lemma {:induction false} ReplayRebuilds(c: Codec, retention: nat, oc: OutputCodec, es: seq<Envelope>, w: World,
                                          written: Writes)
    requires forall k :: 0 <= k < |es| ==> Replayable(oc, es[k]) && EncodeEnvelope(oc, es[k]).Some?
    ensures Replay(c, retention, oc, LogOf(oc, es), w, written) == ApplyAll(c, retention, es, w, written)
  {
    hide ApplyAll;
    ReplayWritten(c, retention, oc, es, [], w, written);
    assert LogOf(oc, es) + [] == LogOf(oc, es);
  }

  /** Every prediction was decoded from a refinement result, so the log of any list of predictions is written
      and rebuilds exactly what they led to. */
  lemma {:induction false} PredictionsReplay(c: Codec, retention: nat, p: RefineOutputs.Payloads, es: seq<Envelope>,
                                             sources: seq<seq<byte>>, w: World, written: Writes)
    requires |sources| == |es|
    requires forall k :: 0 <= k < |es| ==>
      RefineOutputs.DecodeOutput(p, sources[k]) == Ok(es[k].output) && |es[k].key| == 32
    ensures forall k :: 0 <= k < |es| ==> EncodeEnvelope(CodecOf(p), es[k]).Some?
    ensures Replay(c, retention, CodecOf(p), LogOf(CodecOf(p), es), w, written) ==
      ApplyAll(c, retention, es, w, written)
  {
    hide RefineOutputs.DecodeOutput, RefineOutputs.Ready, ApplyAll, Replay, Replayable, EncodeEnvelope;
    var oc := CodecOf(p);
    hide CodecOf;
    forall k | 0 <= k < |es| ensures Replayable(oc, es[k]) && EncodeEnvelope(oc, es[k]).Some? {
      RefineOutputs.DecodedIsReady(p, sources[k], es[k].output);
      ReadyReplays(p, es[k]);
    }
    ReplayRebuilds(c, retention, oc, es, w, written);
  }

  /** A crash in the middle of an append: the replay reports a truncated log and keeps every complete
      entry before it, no more and no less. */
  lemma {:induction false} TornTailKeepsPrefix(
      c: Codec, retention: nat, oc: OutputCodec, es: seq<Envelope>, last: Envelope, cut: nat, w: World,
      written: Writes)
    requires forall k :: 0 <= k < |es| ==> Replayable(oc, es[k]) && EncodeEnvelope(oc, es[k]).Some?
    requires Replayable(oc, last) && EncodeEnvelope(oc, last).Some?
    requires 0 < cut < |Frame(EncodeEnvelope(oc, last).value)|
    requires ApplyAll(c, retention, es, w, written).1.None?
    ensures Replay(c, retention, oc, LogOf(oc, es) + Frame(EncodeEnvelope(oc, last).value)[..cut], w, written) ==
      (ApplyAll(c, retention, es, w, written).0, Some(TruncatedLog))
  {
    hide ApplyAll, AppliedRecovery, EncodeEnvelope, DecodeEnvelope, FromLE;
    var entry := EncodeEnvelope(oc, last).value;
    ReplayableEncodes(oc, last);
    var torn := Frame(entry)[..cut];
    ReplayWritten(c, retention, oc, es, torn, w, written);
    if cut >= 4 {
      FrameParts(entry, []);
      assert Frame(entry) + [] == Frame(entry);
      assert torn[..4] == Frame(entry)[..4];
    }
  }
}
