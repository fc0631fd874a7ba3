/** The two ends of the transcript, updated in place. */
module TranscriptState {
  import opened Containers
  import opened Transcript
  import opened LockStep

  /** What a finished prover hands over. */
  datatype ProofData = ProofData(proofData: seq<Felt>, padding: bool, proofSize: nat)

  method FlattenScalarsToBase(scalars: seq<Ext>) returns (flat: seq<Felt>)
    ensures flat == Flatten(scalars)
  {
    flat := [];
    for k := 0 to |scalars|
      invariant flat == Flatten(scalars[..k])
    {
      assert scalars[..k + 1][..k] == scalars[..k];
      flat := flat + scalars[k];
    }
    assert scalars[..|scalars|] == scalars;
  }

  /** Cuts `n` scalars of dimension `dim` from their coefficients. */
  method PackScalarsToExtension(scalars: seq<Felt>, dim: nat, n: nat) returns (values: seq<Ext>)
    requires dim > 0 && |scalars| == Span(n, dim)
    ensures values == Chunks(scalars, dim)
  {
    values := [];
    var at := 0;
    for k := 0 to n
      invariant at == Span(k, dim) <= |scalars| && values == Chunks(scalars[..at], dim)
    {
      SpanGrows(k + 1, n, dim);
      ghost var head := scalars[..at + dim];
      assert head[..|head| - dim] == scalars[..at] && head[|head| - dim..] == scalars[at..at + dim];
      values := values + [scalars[at..at + dim]];
      at := at + dim;
    }
    assert scalars[..at] == scalars;
  }

  lemma {:induction false} SpanGrows(k: nat, n: nat, dim: nat)
    requires k <= n
    ensures Span(k, dim) <= Span(n, dim)
  {
    if k < n {
      SpanGrows(k, n - 1, dim);
    }
  }

  /** The challenger after observing the scalars in order. */
  method ObserveSlice<C>(sp: Sponge<C>, c: C, scalars: seq<Felt>) returns (c': C)
    ensures c' == Absorb(sp, c, scalars)
  {
    c' := c;
    for k := 0 to |scalars|
      invariant c' == Absorb(sp, c, scalars[..k])
    {
      assert scalars[..k + 1][..k] == scalars[..k];
      c' := sp.observe(c', scalars[k]);
    }
    assert scalars[..|scalars|] == scalars;
  }

  /** `len` challenges in a row. */
  method DrawMany<C>(sp: Sponge<C>, c: C, len: nat) returns (c': C, drawn: seq<Ext>)
    ensures (c', drawn) == Draw(sp, c, len)
  {
    c', drawn := c, [];
    for k := 0 to len
      invariant (c', drawn) == Draw(sp, c, k)
    {
      var (next, e) := sp.sample(c');
      c', drawn := next, drawn + [e];
    }
  }

  class ProverState<C> {
    const sp: Sponge<C>
    const dim: nat
    const padding: bool
    var challenger: C
    var proofData: seq<Felt>
    var nZeros: nat

    ghost function View(): Prover<C>
      reads this
    {
      Prover(challenger, proofData, nZeros)
    }

    constructor (sp: Sponge<C>, dim: nat, challenger: C, padding: bool)
      ensures this.sp == sp && this.dim == dim && this.padding == padding
      ensures View() == ProverRun(sp, dim, padding, challenger, [])
    {
      this.sp, this.dim, this.padding := sp, dim, padding;
      this.challenger, proofData, nZeros := challenger, [], 0;
    }

    method AddBaseScalars(scalars: seq<Felt>)
      modifies `challenger, `proofData
      ensures View() == ProverStep(sp, dim, padding, old(View()), AddBase(scalars))
    {
      proofData := proofData + scalars;
      challenger := ObserveSlice(sp, challenger, scalars);
    }

    /** Writes one extension scalar, filled up with zeros when padding is on. */
    method WriteExtension(e: Ext)
      requires |e| == dim && (padding ==> dim <= LEAN_ISA_VECTOR_LEN)
      modifies this
      ensures challenger == Absorb(sp, old(challenger), Padded(e, padding))
      ensures proofData == old(proofData) + Padded(e, padding)
      ensures nZeros == old(nZeros) + if padding then LEAN_ISA_VECTOR_LEN - dim else 0
    {
      var baseScalars := e;
      if padding {
        nZeros := nZeros + (LEAN_ISA_VECTOR_LEN - |e|);
        baseScalars := e + ZeroFelts(LEAN_ISA_VECTOR_LEN - |e|);
      }
      assert baseScalars == Padded(e, padding);
      AddBaseScalars(baseScalars);
    }

    method AddExtensionScalars(scalars: seq<Ext>)
      requires Sized(scalars, dim) && (padding ==> dim <= LEAN_ISA_VECTOR_LEN)
      modifies this
      ensures View() == ProverStep(sp, dim, padding, old(View()), AddExtension(scalars))
    {
      ghost var before := View();
      NothingAdded(sp, dim, padding, before);
      for k := 0 to |scalars|
        invariant View() == ProverStep(sp, dim, padding, before, AddExtension(scalars[..k]))
      {
        OneMoreAdded(sp, dim, padding, before, scalars, k);
        WriteExtension(scalars[k]);
      }
      assert scalars[..|scalars|] == scalars;
    }

    method AddExtensionScalar(scalar: Ext)
      requires |scalar| == dim && (padding ==> dim <= LEAN_ISA_VECTOR_LEN)
      modifies this
      ensures View() == ProverStep(sp, dim, padding, old(View()), AddExtension([scalar]))
    {
      AddExtensionScalars([scalar]);
    }

    method HintBaseScalars(scalars: seq<Felt>)
      requires |scalars| % LEAN_ISA_VECTOR_LEN == 0
      modifies `proofData
      ensures View() == ProverStep(sp, dim, padding, old(View()), HintBase(scalars))
    {
      proofData := proofData + scalars;
    }

    method HintExtensionScalars(scalars: seq<Ext>)
      requires |scalars| % LEAN_ISA_VECTOR_LEN == 0
      modifies `proofData
      ensures View() == ProverStep(sp, dim, padding, old(View()), HintExtension(scalars))
    {
      var flat := FlattenScalarsToBase(scalars);
      proofData := proofData + flat;
    }

    method SampleVec(len: nat) returns (drawn: seq<Ext>)
      modifies `challenger
      ensures View() == ProverStep(sp, dim, padding, old(View()), Write.Sample(len))
      ensures Challenges(drawn) == Shown(sp, old(challenger), Write.Sample(len))
      ensures (challenger, drawn) == Draw(sp, old(challenger), len)
    {
      challenger, drawn := DrawMany(sp, challenger, len);
    }

    method SampleBits(bits: nat) returns (drawn: nat)
      modifies `challenger
      ensures View() == ProverStep(sp, dim, padding, old(View()), Write.SampleBits(bits))
      ensures RandomBits(drawn) == Shown(sp, old(challenger), Write.SampleBits(bits))
      ensures (challenger, drawn) == sp.sampleBits(old(challenger), bits)
    {
      var (c, r) := sp.sampleBits(challenger, bits);
      challenger, drawn := c, r;
    }

    method PowGrinding(bits: nat)
      modifies this
      ensures View() == ProverStep(sp, dim, padding, old(View()), Grind(bits))
    {
      if bits == 0 {
        return;
      }
      var (c, found) := sp.grind(challenger, bits);
      challenger := c;
      ghost var before := proofData;
      proofData := proofData + [found];
      if padding {
        for k := 0 to LEAN_ISA_VECTOR_LEN - 1
          invariant challenger == c && nZeros == old(nZeros) + k
          invariant proofData == before + ([found] + ZeroFelts(k))
        {
          proofData := proofData + [0];
          nZeros := nZeros + 1;
        }
      }
    }

    /** Hands the proof over; its size does not count the alignment zeros. */
    method IntoProof(ghost start: C, ghost script: seq<Write>) returns (proof: ProofData)
      requires View() == ProverRun(sp, dim, padding, start, script) && AllWritable(script, dim, padding)
      ensures proof.padding == padding && proof.proofData == proofData
      ensures proof.proofSize == |proofData| - nZeros == |ProverRun(sp, dim, false, start, script).data|
    {
      ProofLength(sp, dim, padding, start, script);
      assert AllWritable(script, dim, false);
      ProofLength(sp, dim, false, start, script);
      proof := ProofData(proofData, padding, |proofData| - nZeros);
    }
  }

  lemma NothingAdded<C>(sp: Sponge<C>, dim: nat, padding: bool, p: Prover<C>)
    ensures ProverStep(sp, dim, padding, p, AddExtension([])) == p
  {
    assert PadAll([], padding) == [];
    assert p.data + [] == p.data;
  }

  lemma OneMoreAdded<C>(sp: Sponge<C>, dim: nat, padding: bool, p: Prover<C>, scalars: seq<Ext>, k: nat)
    requires k < |scalars| && (padding ==> dim <= LEAN_ISA_VECTOR_LEN)
    ensures var q := ProverStep(sp, dim, padding, p, AddExtension(scalars[..k]));
            var e := Padded(scalars[k], padding);
            ProverStep(sp, dim, padding, p, AddExtension(scalars[..k + 1]))
            == Prover(Absorb(sp, q.challenger, e), q.data + e, q.zeros + if padding then LEAN_ISA_VECTOR_LEN - dim else 0)
  {
    var before := Flatten(PadAll(scalars[..k], padding));
    assert scalars[..k + 1][..k] == scalars[..k];
    PadAllInit(scalars[..k + 1], padding);
    AbsorbConcat(sp, p.challenger, before, Padded(scalars[k], padding));
    assert (p.data + before) + Padded(scalars[k], padding) == p.data + (before + Padded(scalars[k], padding));
  }

  class VerifierState<C> {
    const sp: Sponge<C>
    const dim: nat
    const padding: bool
    const proofData: seq<Felt>
    var challenger: C
    var index: nat

    ghost function View(): Verifier<C>
      reads this
    {
      Verifier(challenger, index)
    }

    /** The read position is inside the proof and a padded scalar fits its vector. */
    ghost predicate Valid()
      reads this
    {
      dim > 0 && index <= |proofData| && (padding ==> dim <= LEAN_ISA_VECTOR_LEN)
    }

    constructor (sp: Sponge<C>, dim: nat, proof: ProofData, challenger: C)
      requires dim > 0 && (proof.padding ==> dim <= LEAN_ISA_VECTOR_LEN)
      ensures this.sp == sp && this.dim == dim && padding == proof.padding && proofData == proof.proofData
      ensures Valid() && View() == Verifier(challenger, 0)
    {
      this.sp, this.dim, padding, proofData := sp, dim, proof.padding, proof.proofData;
      this.challenger, index := challenger, 0;
    }

    method NextBaseScalarsVec(n: nat) returns (r: Result<seq<Felt>, ReadError>)
      requires Valid()
      modifies `challenger, `index
      ensures Valid() && Answers(TakeBase(sp, proofData, old(View()), n, true), r, View())
      ensures r == if old(index) + n <= |proofData| then Ok(proofData[old(index)..old(index) + n]) else Err(ExceededTranscript)
      ensures r.Ok? ==> index == old(index) + n
      ensures r.Err? ==> View() == old(View())
    {
      if n > |proofData| - index {
        return Err(ExceededTranscript);
      }
      var scalars := proofData[index..index + n];
      index := index + n;
      challenger := ObserveSlice(sp, challenger, scalars);
      return Ok(scalars);
    }

    /** Reads one extension scalar and checks that its padding is zero. */
    method ReadExtension() returns (r: Result<Ext, ReadError>)
      requires Valid()
      modifies `challenger, `index
      ensures Valid() && Answers(TakeOne(sp, dim, padding, proofData, old(View())), r, View())
      ensures var width := if padding then LEAN_ISA_VECTOR_LEN else dim;
              if old(index) + width > |proofData| then r == Err(ExceededTranscript) && View() == old(View())
              else
                var read := proofData[old(index)..old(index) + width];
                && index == old(index) + width
                && r == if forall i :: dim <= i < width ==> read[i] == 0 then Ok(read[..dim]) else Err(NonZeroPadding)
      ensures View() == AfterOne(sp, dim, padding, proofData, old(View()))
    {
      var scalars := NextBaseScalarsVec(if padding then LEAN_ISA_VECTOR_LEN else dim);
      if scalars.Err? {
        return Err(scalars.error);
      }
      if exists i :: dim <= i < |scalars.value| && scalars.value[i] != 0 {
        return Err(NonZeroPadding);
      }
      return Ok(scalars.value[..dim]);
    }

    method NextExtensionScalarsVec(n: nat) returns (r: Result<seq<Ext>, ReadError>)
      requires Valid()
      modifies `challenger, `index
      ensures Valid() && Answers(TakeExtension(sp, dim, padding, proofData, old(View()), n), r, View())
      ensures View() == AfterMany(sp, dim, padding, proofData, old(View()), n)
    {
      var res: seq<Ext> := [];
      for k := 0 to n
        invariant Valid()
        invariant Answers(TakeExtension(sp, dim, padding, proofData, old(View()), k), Ok(res), View())
        invariant View() == AfterMany(sp, dim, padding, proofData, old(View()), k)
      {
        var one := ReadExtension();
        if one.Err? {
          TakeFails(sp, dim, padding, proofData, old(View()), k + 1, n);
          return Err(one.error);
        }
        res := res + [one.value];
      }
      return Ok(res);
    }

    method ReceiveHintBaseScalars(n: nat) returns (r: Result<seq<Felt>, ReadError>)
      requires Valid()
      modifies `index
      ensures Valid() && Answers(TakeBase(sp, proofData, old(View()), n, false), r, View())
      ensures r == if old(index) + n <= |proofData| then Ok(proofData[old(index)..old(index) + n]) else Err(ExceededTranscript)
      ensures r.Ok? ==> index == old(index) + n
      ensures r.Err? ==> View() == old(View())
    {
      if n > |proofData| - index {
        return Err(ExceededTranscript);
      }
      var scalars := proofData[index..index + n];
      index := index + n;
      return Ok(scalars);
    }

    method ReceiveHintExtensionScalars(n: nat) returns (r: Result<seq<Ext>, ReadError>)
      requires Valid()
      modifies `index
      ensures Valid()
      ensures r.Err? <==> VerifierStep(sp, dim, padding, proofData, old(View()), ReceiveHintExtension(n)).Err?
      ensures r.Ok? ==>
                VerifierStep(sp, dim, padding, proofData, old(View()), ReceiveHintExtension(n)) == Ok((View(), Values(r.value)))
      ensures r.Err? ==> r.error == ExceededTranscript && View() == old(View())
    {
      SpanIsProduct(n, dim);
      var scalars := ReceiveHintBaseScalars(n * dim);
      if scalars.Err? {
        return Err(scalars.error);
      }
      var values := PackScalarsToExtension(scalars.value, dim, n);
      return Ok(values);
    }

    method SampleVec(len: nat) returns (drawn: seq<Ext>)
      requires Valid()
      modifies `challenger
      ensures Valid()
      ensures VerifierStep(sp, dim, padding, proofData, old(View()), Resample(len)) == Ok((View(), Challenges(drawn)))
      ensures (challenger, drawn) == Draw(sp, old(challenger), len)
    {
      challenger, drawn := DrawMany(sp, challenger, len);
    }

    method SampleBits(bits: nat) returns (drawn: nat)
      requires Valid()
      modifies `challenger
      ensures Valid()
      ensures VerifierStep(sp, dim, padding, proofData, old(View()), ResampleBits(bits)) == Ok((View(), RandomBits(drawn)))
      ensures (challenger, drawn) == sp.sampleBits(old(challenger), bits)
    {
      var (c, r) := sp.sampleBits(challenger, bits);
      challenger, drawn := c, r;
    }

    method CheckPowGrinding(bits: nat) returns (failure: Option<ReadError>)
      requires Valid()
      modifies `challenger, `index
      ensures Valid()
      ensures match VerifierStep(sp, dim, padding, proofData, old(View()), CheckGrinding(bits))
              case Ok(out) => failure.None? && out.0 == View()
              case Err(e) => failure == Some(e)
      ensures var width := if padding then LEAN_ISA_VECTOR_LEN else 1;
              failure ==
              if bits == 0 then None
              else if old(index) + width > |proofData| then Some(ExceededTranscript)
              else if sp.checkWitness(old(challenger), bits, proofData[old(index)]).1 then None
              else Some(InvalidGrindingWitness)
      ensures failure == Some(ExceededTranscript) ==> View() == old(View())
      ensures failure == Some(InvalidGrindingWitness) ==>
                && old(index) < |proofData|
                && challenger == sp.checkWitness(old(challenger), bits, proofData[old(index)]).0
                && index == old(index) + WitnessWidth(padding)
    {
      if bits == 0 {
        return None;
      }
      if index + (if padding then LEAN_ISA_VECTOR_LEN else 1) > |proofData| {
        return Some(ExceededTranscript);
      }
      var found := proofData[index];
      index := index + if padding then LEAN_ISA_VECTOR_LEN else 1;
      var (c, ok) := sp.checkWitness(challenger, bits, found);
      challenger := c;
      return if ok then None else Some(InvalidGrindingWitness);
    }
  }

  /** A read returned the expected values and left the verifier where expected, or
      failed as expected. */
  ghost predicate Answers<C, T>(expected: Result<(Verifier<C>, T), ReadError>, r: Result<T, ReadError>, v: Verifier<C>) {
    match expected
    case Ok(out) => r.Ok? && out.0 == v && out.1 == r.value
    case Err(e) => r.Err? && r.error == e
  }

  /** Where reading one extension scalar leaves the verifier: nowhere else if too little
      is left, and past the scalar even if its padding is wrong. */
  ghost function AfterOne<C>(sp: Sponge<C>, dim: nat, padding: bool, data: seq<Felt>, v: Verifier<C>): Verifier<C>
    requires v.index <= |data|
  {
    var taken := TakeBase(sp, data, v, Width(dim, padding), true);
    if taken.Err? then v else taken.value.0
  }

  /** Where reading `n` of them leaves it: at the first one that fails, if any. */
  ghost function AfterMany<C>(sp: Sponge<C>, dim: nat, padding: bool, data: seq<Felt>, v: Verifier<C>, n: nat): Verifier<C>
    requires v.index <= |data| && (padding ==> dim <= LEAN_ISA_VECTOR_LEN)
  {
    if n == 0 then v
    else
      var before := TakeExtension(sp, dim, padding, data, v, n - 1);
      if before.Err? then AfterMany(sp, dim, padding, data, v, n - 1)
      else AfterOne(sp, dim, padding, data, before.value.0)
  }

  /** A read that fails part way fails as a whole and goes no further. */
  lemma {:induction false} TakeFails<C>(sp: Sponge<C>, dim: nat, padding: bool, data: seq<Felt>, v: Verifier<C>, k: nat, n: nat)
    requires v.index <= |data| && (padding ==> dim <= LEAN_ISA_VECTOR_LEN) && k <= n
    requires TakeExtension(sp, dim, padding, data, v, k).Err?
    ensures TakeExtension(sp, dim, padding, data, v, n) == TakeExtension(sp, dim, padding, data, v, k)
    ensures AfterMany(sp, dim, padding, data, v, n) == AfterMany(sp, dim, padding, data, v, k)
  {
    if k < n {
      TakeFails(sp, dim, padding, data, v, k, n - 1);
    }
  }
}
