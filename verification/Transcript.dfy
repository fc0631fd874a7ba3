/** The Fiat-Shamir transcript: what a prover writes and a verifier reads. */
module Transcript {
  import opened Containers

  /** Base field elements; only equality and the zero matter here. */
  type Felt = nat
  /** An extension field element, as its coefficients over the base field. */
  type Ext = seq<Felt>

  const LEAN_ISA_VECTOR_LEN: nat := 8

  /** The challenger: a state machine that absorbs scalars and yields challenges. */
  datatype Sponge<!C> = Sponge(
    observe: (C, Felt) -> C,
    sample: C -> (C, Ext),
    sampleBits: (C, nat) -> (C, nat),
    grind: (C, nat) -> (C, Felt),
    checkWitness: (C, nat, Felt) -> (C, bool))

  /** A ground witness passes its check and leaves the checker in the same state. */
  ghost predicate Grinds<C(!new)>(sp: Sponge<C>) {
    forall c, bits: nat :: bits > 0 ==> sp.checkWitness(c, bits, sp.grind(c, bits).1) == (sp.grind(c, bits).0, true)
  }

  function Absorb<C>(sp: Sponge<C>, c: C, scalars: seq<Felt>): C {
    if scalars == [] then c else sp.observe(Absorb(sp, c, scalars[..|scalars| - 1]), scalars[|scalars| - 1])
  }

  /** `len` challenges in a row. */
  function Draw<C>(sp: Sponge<C>, c: C, len: nat): (C, seq<Ext>) {
    if len == 0 then (c, [])
    else
      var (c1, drawn) := Draw(sp, c, len - 1);
      var (c2, e) := sp.sample(c1);
      (c2, drawn + [e])
  }

  // ----------------------------------------------------------------- encodings

  function Flatten(scalars: seq<Ext>): seq<Felt> {
    if scalars == [] then [] else Flatten(scalars[..|scalars| - 1]) + scalars[|scalars| - 1]
  }

  /** The length of `n` pieces of `dim`. */
  function Span(n: nat, dim: nat): nat {
    if n == 0 then 0 else Span(n - 1, dim) + dim
  }

  lemma {:induction false} SpanIsProduct(n: nat, dim: nat)
    ensures Span(n, dim) == n * dim
  {
    if n > 0 {
      SpanIsProduct(n - 1, dim);
      assert n * dim == (n - 1) * dim + dim;
    }
  }

  /** `data` cut into pieces of `dim`; `data` is a whole number of pieces. */
  function Chunks(data: seq<Felt>, dim: nat): seq<Ext>
    requires dim > 0
  {
    if |data| < dim then [] else Chunks(data[..|data| - dim], dim) + [data[|data| - dim..]]
  }

  ghost predicate Sized(scalars: seq<Ext>, dim: nat) {
    forall e :: e in scalars ==> |e| == dim
  }

  lemma {:induction false} FlattenLength(scalars: seq<Ext>, dim: nat)
    requires Sized(scalars, dim)
    ensures |Flatten(scalars)| == Span(|scalars|, dim)
  {
    if scalars != [] {
      FlattenLength(scalars[..|scalars| - 1], dim);
    }
  }

  /** Packing undoes flattening. */
  lemma {:induction false} ChunksOfFlatten(scalars: seq<Ext>, dim: nat)
    requires dim > 0 && Sized(scalars, dim)
    ensures Chunks(Flatten(scalars), dim) == scalars
  {
    if scalars != [] {
      var init, last := scalars[..|scalars| - 1], scalars[|scalars| - 1];
      ChunksOfFlatten(init, dim);
      var flat := Flatten(scalars);
      assert flat[..|flat| - dim] == Flatten(init);
      assert flat[|flat| - dim..] == last;
    }
  }

  function ZeroFelts(n: nat): seq<Felt> {
    seq(n, _ => 0)
  }

  /** One extension scalar as it is written: padded with zeros to a full vector. */
  function Padded(e: Ext, padding: bool): seq<Felt> {
    if padding && |e| < LEAN_ISA_VECTOR_LEN then e + ZeroFelts(LEAN_ISA_VECTOR_LEN - |e|) else e
  }

  function PadAll(scalars: seq<Ext>, padding: bool): seq<Ext> {
    seq(|scalars|, i requires 0 <= i < |scalars| => Padded(scalars[i], padding))
  }

  // ------------------------------------------------------------------- scripts

  /** What a prover can do. */
  datatype Write =
    | AddBase(scalars: seq<Felt>)
    | AddExtension(values: seq<Ext>)
    | HintBase(hints: seq<Felt>)
    | HintExtension(hintValues: seq<Ext>)
    | Grind(bits: nat)
    | Sample(len: nat)
    | SampleBits(width: nat)

  /** What a verifier can do. */
  datatype Read =
    | NextBase(n: nat)
    | NextExtension(n: nat)
    | ReceiveHintBase(n: nat)
    | ReceiveHintExtension(n: nat)
    | CheckGrinding(bits: nat)
    | Resample(len: nat)
    | ResampleBits(width: nat)

  /** The read that matches a write. */
  function Matching(w: Write): Read {
    match w
    case AddBase(s) => NextBase(|s|)
    case AddExtension(s) => NextExtension(|s|)
    case HintBase(s) => ReceiveHintBase(|s|)
    case HintExtension(s) => ReceiveHintExtension(|s|)
    case Grind(bits) => CheckGrinding(bits)
    case Sample(len) => Resample(len)
    case SampleBits(width) => ResampleBits(width)
  }

  /** What a call makes known to its caller. */
  datatype Disclosure =
    | Scalars(scalars: seq<Felt>)
    | Values(values: seq<Ext>)
    | Challenges(challenges: seq<Ext>)
    | RandomBits(drawn: nat)
    | Silent

  /** Hints come in whole vectors, extension scalars have the field's dimension, and a
      padded scalar fits its vector. */
  ghost predicate Writable(w: Write, dim: nat, padding: bool) {
    match w
    case AddExtension(s) => Sized(s, dim) && (padding ==> dim <= LEAN_ISA_VECTOR_LEN)
    case HintBase(s) => |s| % LEAN_ISA_VECTOR_LEN == 0
    case HintExtension(s) => Sized(s, dim) && |s| % LEAN_ISA_VECTOR_LEN == 0
    case _ => true
  }

  // -------------------------------------------------------------------- prover

  datatype Prover<C> = Prover(challenger: C, data: seq<Felt>, zeros: nat)

  /** The width of a grinding witness in the proof. */
  function WitnessWidth(padding: bool): nat {
    if padding then LEAN_ISA_VECTOR_LEN else 1
  }

  /** What a write appends to the proof. */
  ghost function Written<C>(sp: Sponge<C>, padding: bool, c: C, w: Write): seq<Felt> {
    match w
    case AddBase(s) => s
    case AddExtension(s) => Flatten(PadAll(s, padding))
    case HintBase(s) => s
    case HintExtension(s) => Flatten(s)
    case Grind(bits) =>
      if bits == 0 then [] else [sp.grind(c, bits).1] + ZeroFelts(WitnessWidth(padding) - 1)
    case _ => []
  }

  /** The challenger after a write. */
  ghost function Challenged<C>(sp: Sponge<C>, padding: bool, c: C, w: Write): C {
    match w
    case AddBase(s) => Absorb(sp, c, s)
    case AddExtension(s) => Absorb(sp, c, Flatten(PadAll(s, padding)))
    case Grind(bits) => if bits == 0 then c else sp.grind(c, bits).0
    case Sample(len) => Draw(sp, c, len).0
    case SampleBits(width) => sp.sampleBits(c, width).0
    case _ => c
  }

  ghost function Shown<C>(sp: Sponge<C>, c: C, w: Write): Disclosure {
    match w
    case AddBase(s) => Scalars(s)
    case AddExtension(s) => Values(s)
    case HintBase(s) => Scalars(s)
    case HintExtension(s) => Values(s)
    case Grind(_) => Silent
    case Sample(len) => Challenges(Draw(sp, c, len).1)
    case SampleBits(width) => RandomBits(sp.sampleBits(c, width).1)
  }

  /** The zeros a write adds only for alignment. */
  ghost function Filler(padding: bool, dim: nat, w: Write): nat {
    match w
    case AddExtension(s) => if padding && dim <= LEAN_ISA_VECTOR_LEN then Span(|s|, LEAN_ISA_VECTOR_LEN - dim) else 0
    case Grind(bits) => if padding && bits > 0 then LEAN_ISA_VECTOR_LEN - 1 else 0
    case _ => 0
  }

  ghost function ProverStep<C>(sp: Sponge<C>, dim: nat, padding: bool, p: Prover<C>, w: Write): Prover<C> {
    Prover(Challenged(sp, padding, p.challenger, w), p.data + Written(sp, padding, p.challenger, w),
           p.zeros + Filler(padding, dim, w))
  }

  ghost function ProverRun<C>(sp: Sponge<C>, dim: nat, padding: bool, c: C, script: seq<Write>): Prover<C> {
    if script == [] then Prover(c, [], 0)
    else ProverStep(sp, dim, padding, ProverRun(sp, dim, padding, c, script[..|script| - 1]), script[|script| - 1])
  }

  ghost function ProverEvents<C>(sp: Sponge<C>, dim: nat, padding: bool, c: C, script: seq<Write>): seq<Disclosure> {
    if script == [] then []
    else
      var init := script[..|script| - 1];
      ProverEvents(sp, dim, padding, c, init)
      + [Shown(sp, ProverRun(sp, dim, padding, c, init).challenger, script[|script| - 1])]
  }

  // ------------------------------------------------------------------ verifier

  datatype ReadError = ExceededTranscript | InvalidGrindingWitness | NonZeroPadding

  datatype Verifier<C> = Verifier(challenger: C, index: nat)

  /** `n` scalars at the read position, observed or not. */
  ghost function TakeBase<C>(sp: Sponge<C>, data: seq<Felt>, v: Verifier<C>, n: nat, observe: bool)
    : (r: Result<(Verifier<C>, seq<Felt>), ReadError>)
    requires v.index <= |data|
    ensures r.Ok? ==> r.value.0.index == v.index + n <= |data|
  {
    if n > |data| - v.index then Err(ExceededTranscript)
    else
      var scalars := data[v.index..v.index + n];
      Ok((Verifier(if observe then Absorb(sp, v.challenger, scalars) else v.challenger, v.index + n), scalars))
  }

  /** The number of base scalars one extension scalar takes in the proof. */
  function Width(dim: nat, padding: bool): nat {
    if padding then LEAN_ISA_VECTOR_LEN else dim
  }

  ghost predicate ZeroFrom(s: seq<Felt>, k: nat) {
    forall i :: k <= i < |s| ==> s[i] == 0
  }

  /** One extension scalar, with its padding checked. */
  ghost function TakeOne<C>(sp: Sponge<C>, dim: nat, padding: bool, data: seq<Felt>, v: Verifier<C>)
    : (r: Result<(Verifier<C>, Ext), ReadError>)
    requires v.index <= |data| && (padding ==> dim <= LEAN_ISA_VECTOR_LEN)
    ensures r.Ok? ==> r.value.0.index == v.index + Width(dim, padding) <= |data|
  {
    var taken := TakeBase(sp, data, v, Width(dim, padding), true);
    if taken.Err? then Err(taken.error)
    else if !ZeroFrom(taken.value.1, dim) then Err(NonZeroPadding)
    else Ok((taken.value.0, taken.value.1[..dim]))
  }

  ghost function TakeExtension<C>(sp: Sponge<C>, dim: nat, padding: bool, data: seq<Felt>, v: Verifier<C>, n: nat)
    : (r: Result<(Verifier<C>, seq<Ext>), ReadError>)
    requires v.index <= |data| && (padding ==> dim <= LEAN_ISA_VECTOR_LEN)
    ensures r.Ok? ==> r.value.0.index <= |data|
  {
    if n == 0 then Ok((v, []))
    else
      var before := TakeExtension(sp, dim, padding, data, v, n - 1);
      if before.Err? then before
      else
        var last := TakeOne(sp, dim, padding, data, before.value.0);
        if last.Err? then Err(last.error) else Ok((last.value.0, before.value.1 + [last.value.1]))
  }

  ghost function VerifierStep<C>(sp: Sponge<C>, dim: nat, padding: bool, data: seq<Felt>, v: Verifier<C>, r: Read)
    : (out: Result<(Verifier<C>, Disclosure), ReadError>)
    requires dim > 0 && v.index <= |data| && (padding ==> dim <= LEAN_ISA_VECTOR_LEN)
    ensures out.Ok? ==> out.value.0.index <= |data|
  {
    match r
    case NextBase(n) =>
      var taken := TakeBase(sp, data, v, n, true);
      if taken.Err? then Err(taken.error) else Ok((taken.value.0, Scalars(taken.value.1)))
    case NextExtension(n) =>
      var taken := TakeExtension(sp, dim, padding, data, v, n);
      if taken.Err? then Err(taken.error) else Ok((taken.value.0, Values(taken.value.1)))
    case ReceiveHintBase(n) =>
      var taken := TakeBase(sp, data, v, n, false);
      if taken.Err? then Err(taken.error) else Ok((taken.value.0, Scalars(taken.value.1)))
    case ReceiveHintExtension(n) =>
      var taken := TakeBase(sp, data, v, Span(n, dim), false);
      if taken.Err? then Err(taken.error) else Ok((taken.value.0, Values(Chunks(taken.value.1, dim))))
    case CheckGrinding(bits) =>
      if bits == 0 then Ok((v, Silent))
      else if v.index + WitnessWidth(padding) > |data| then Err(ExceededTranscript)
      else
        var (c, ok) := sp.checkWitness(v.challenger, bits, data[v.index]);
        if ok then Ok((Verifier(c, v.index + WitnessWidth(padding)), Silent)) else Err(InvalidGrindingWitness)
    case Resample(len) =>
      var (c, drawn) := Draw(sp, v.challenger, len);
      Ok((Verifier(c, v.index), Challenges(drawn)))
    case ResampleBits(width) =>
      var (c, drawn) := sp.sampleBits(v.challenger, width);
      Ok((Verifier(c, v.index), RandomBits(drawn)))
  }

  ghost function VerifierRun<C>(sp: Sponge<C>, dim: nat, padding: bool, data: seq<Felt>, c: C, script: seq<Read>)
    : (out: Result<(Verifier<C>, seq<Disclosure>), ReadError>)
    requires dim > 0 && (padding ==> dim <= LEAN_ISA_VECTOR_LEN)
    ensures out.Ok? ==> out.value.0.index <= |data|
  {
    if script == [] then Ok((Verifier(c, 0), []))
    else
      var before := VerifierRun(sp, dim, padding, data, c, script[..|script| - 1]);
      if before.Err? then before
      else
        var last := VerifierStep(sp, dim, padding, data, before.value.0, script[|script| - 1]);
        if last.Err? then Err(last.error) else Ok((last.value.0, before.value.1 + [last.value.1]))
  }
}
