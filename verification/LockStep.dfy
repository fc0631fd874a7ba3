/** Prover and verifier stay in lock-step over every script. */
module LockStep {
  import opened Containers
  import opened Transcript

  lemma {:induction false} AbsorbConcat<C>(sp: Sponge<C>, c: C, a: seq<Felt>, b: seq<Felt>)
    ensures Absorb(sp, Absorb(sp, c, a), b) == Absorb(sp, c, a + b)
  {
    if b == [] {
      assert a + b == a;
    } else {
      var init := b[..|b| - 1];
      AbsorbConcat(sp, c, a, init);
      assert (a + b)[..|a + b| - 1] == a + init;
    }
  }

  lemma PaddedSized(scalars: seq<Ext>, dim: nat, padding: bool)
    requires Sized(scalars, dim) && (padding ==> dim <= LEAN_ISA_VECTOR_LEN)
    ensures |Flatten(PadAll(scalars, padding))| == Span(|scalars|, Width(dim, padding))
  {
    FlattenLength(PadAll(scalars, padding), Width(dim, padding));
  }

  lemma WrittenNext(before: seq<Felt>, written: seq<Felt>, data: seq<Felt>)
    requires before + written <= data
    ensures data[|before|..|before| + |written|] == written && written <= data[|before|..]
  {
    assert data[..|before| + |written|] == before + written;
    assert (before + written)[|before|..] == written;
  }

  /** Reading as many scalars gives `scalars` and leaves the verifier at `v'`. */
  ghost predicate TakesBase<C>(sp: Sponge<C>, data: seq<Felt>, v: Verifier<C>, scalars: seq<Felt>, observe: bool,
                               v': Verifier<C>)
    requires v.index <= |data|
  {
    var taken := TakeBase(sp, data, v, |scalars|, observe);
    taken.Ok? && taken.value.0 == v' && taken.value.1 == scalars
  }

  ghost predicate TakesValues<C>(sp: Sponge<C>, dim: nat, padding: bool, data: seq<Felt>, v: Verifier<C>,
                                 values: seq<Ext>, v': Verifier<C>)
    requires v.index <= |data| && (padding ==> dim <= LEAN_ISA_VECTOR_LEN)
  {
    var taken := TakeExtension(sp, dim, padding, data, v, |values|);
    taken.Ok? && taken.value.0 == v' && taken.value.1 == values
  }

  /** Reading `scalars` where they were written. */
  lemma TakesScalars<C>(sp: Sponge<C>, data: seq<Felt>, v: Verifier<C>, scalars: seq<Felt>, observe: bool)
    requires v.index <= |data| && scalars <= data[v.index..]
    ensures TakesBase(sp, data, v, scalars, observe,
                      Verifier(if observe then Absorb(sp, v.challenger, scalars) else v.challenger, v.index + |scalars|))
  {
    assert data[v.index..][..|scalars|] == scalars;
    assert data[v.index..v.index + |scalars|] == data[v.index..][..|scalars|];
  }

  lemma PadAllInit(scalars: seq<Ext>, padding: bool)
    requires scalars != []
    ensures var init, last := scalars[..|scalars| - 1], scalars[|scalars| - 1];
            Flatten(PadAll(scalars, padding)) == Flatten(PadAll(init, padding)) + Padded(last, padding)
  {
    assert PadAll(scalars, padding)[..|scalars| - 1] == PadAll(scalars[..|scalars| - 1], padding);
  }

  lemma PrefixSplits(a: seq<Felt>, b: seq<Felt>, data: seq<Felt>, at: nat)
    requires at <= |data| && a + b <= data[at..]
    ensures a <= data[at..] && at + |a| <= |data| && b <= data[at + |a|..]
  {
    assert data[at..][|a|..] == data[at + |a|..];
    WrittenNext(a, b, data[at..]);
  }

  lemma TakesOneMore<C>(sp: Sponge<C>, dim: nat, padding: bool, data: seq<Felt>, v: Verifier<C>, scalars: seq<Ext>,
                        v1: Verifier<C>, v2: Verifier<C>)
    requires v.index <= |data| && Sized(scalars, dim) && scalars != [] && (padding ==> dim <= LEAN_ISA_VECTOR_LEN)
    requires TakesValues(sp, dim, padding, data, v, scalars[..|scalars| - 1], v1)
    requires v1.index <= |data| && TakesBase(sp, data, v1, Padded(scalars[|scalars| - 1], padding), true, v2)
    ensures TakesValues(sp, dim, padding, data, v, scalars, v2)
  {
    var init, last := scalars[..|scalars| - 1], scalars[|scalars| - 1];
    assert |Padded(last, padding)| == Width(dim, padding);
    assert Padded(last, padding)[..dim] == last;
    assert init + [last] == scalars;
  }

  /** The verifier reads back the extension scalars the prover wrote. */
  lemma {:induction false} TakesWritten<C>(sp: Sponge<C>, dim: nat, padding: bool, data: seq<Felt>, v: Verifier<C>,
                                           scalars: seq<Ext>, flat: seq<Felt>)
    requires v.index <= |data| && Sized(scalars, dim) && (padding ==> dim <= LEAN_ISA_VECTOR_LEN)
    requires flat == Flatten(PadAll(scalars, padding)) && flat <= data[v.index..]
    ensures TakesValues(sp, dim, padding, data, v, scalars, Verifier(Absorb(sp, v.challenger, flat), v.index + |flat|))
  {
    if scalars == [] {
      assert flat == [];
    } else {
      var init := scalars[..|scalars| - 1];
      var before, padded := Flatten(PadAll(init, padding)), Padded(scalars[|scalars| - 1], padding);
      PadAllInit(scalars, padding);
      PrefixSplits(before, padded, data, v.index);
      TakesWritten(sp, dim, padding, data, v, init, before);
      var v1 := Verifier(Absorb(sp, v.challenger, before), v.index + |before|);
      TakesScalars(sp, data, v1, padded, true);
      AbsorbConcat(sp, v.challenger, before, padded);
      TakesOneMore(sp, dim, padding, data, v, scalars, v1, Verifier(Absorb(sp, v.challenger, flat), v.index + |flat|));
    }
  }

  lemma WitnessMatches<C(!new)>(sp: Sponge<C>, dim: nat, padding: bool, p: Prover<C>, bits: nat, data: seq<Felt>)
    requires dim > 0 && Grinds(sp) && (padding ==> dim <= LEAN_ISA_VECTOR_LEN)
    requires ProverStep(sp, dim, padding, p, Grind(bits)).data <= data
    ensures var p' := ProverStep(sp, dim, padding, p, Grind(bits));
            VerifierStep(sp, dim, padding, data, Verifier(p.challenger, |p.data|), CheckGrinding(bits))
            == Ok((Verifier(p'.challenger, |p'.data|), Silent))
  {
    if bits > 0 {
      var written := Written(sp, padding, p.challenger, Grind(bits));
      WrittenNext(p.data, written, data);
      WitnessPasses(sp, dim, padding, data, Verifier(p.challenger, |p.data|), bits);
    }
  }

  lemma WitnessPasses<C(!new)>(sp: Sponge<C>, dim: nat, padding: bool, data: seq<Felt>, v: Verifier<C>, bits: nat)
    requires dim > 0 && Grinds(sp) && (padding ==> dim <= LEAN_ISA_VECTOR_LEN) && bits > 0
    requires v.index + WitnessWidth(padding) <= |data| && data[v.index] == sp.grind(v.challenger, bits).1
    ensures VerifierStep(sp, dim, padding, data, v, CheckGrinding(bits))
            == Ok((Verifier(sp.grind(v.challenger, bits).0, v.index + WitnessWidth(padding)), Silent))
  {
    assert sp.checkWitness(v.challenger, bits, data[v.index]) == (sp.grind(v.challenger, bits).0, true);
  }

  /** What matching a write means for the verifier. */
  ghost predicate Matches<C>(sp: Sponge<C>, dim: nat, padding: bool, p: Prover<C>, w: Write, data: seq<Felt>)
    requires dim > 0 && |p.data| <= |data| && (padding ==> dim <= LEAN_ISA_VECTOR_LEN)
  {
    var p' := ProverStep(sp, dim, padding, p, w);
    var out := VerifierStep(sp, dim, padding, data, Verifier(p.challenger, |p.data|), Matching(w));
    && out.Ok?
    && out.value.0 == Verifier(p'.challenger, |p'.data|)
    && out.value.1 == Shown(sp, p.challenger, w)
  }

  /** A hint is read back as it was written, without touching the challenger. */
  lemma TakesHint<C>(sp: Sponge<C>, dim: nat, padding: bool, data: seq<Felt>, v: Verifier<C>, s: seq<Ext>, flat: seq<Felt>)
    requires dim > 0 && v.index <= |data| && (padding ==> dim <= LEAN_ISA_VECTOR_LEN)
    requires |flat| == Span(|s|, dim) && Chunks(flat, dim) == s && flat <= data[v.index..]
    ensures var out := VerifierStep(sp, dim, padding, data, v, ReceiveHintExtension(|s|));
            out.Ok? && out.value.0 == Verifier(v.challenger, v.index + |flat|) && out.value.1 == Values(s)
  {
    TakesScalars(sp, data, v, flat, false);
  }

  lemma HintMatches<C>(sp: Sponge<C>, dim: nat, padding: bool, p: Prover<C>, s: seq<Ext>, data: seq<Felt>)
    requires dim > 0 && Sized(s, dim) && (padding ==> dim <= LEAN_ISA_VECTOR_LEN)
    requires p.data + Flatten(s) <= data
    ensures Matches(sp, dim, padding, p, HintExtension(s), data)
  {
    ChunksOfFlatten(s, dim);
    FlattenLength(s, dim);
    WrittenNext(p.data, Flatten(s), data);
    TakesHint(sp, dim, padding, data, Verifier(p.challenger, |p.data|), s, Flatten(s));
  }

  lemma BaseMatches<C>(sp: Sponge<C>, dim: nat, padding: bool, p: Prover<C>, s: seq<Felt>, data: seq<Felt>)
    requires dim > 0 && (padding ==> dim <= LEAN_ISA_VECTOR_LEN) && p.data + s <= data
    ensures Matches(sp, dim, padding, p, AddBase(s), data)
  {
    WrittenNext(p.data, s, data);
    TakesScalars(sp, data, Verifier(p.challenger, |p.data|), s, true);
  }

  lemma ExtensionMatches<C>(sp: Sponge<C>, dim: nat, padding: bool, p: Prover<C>, s: seq<Ext>, data: seq<Felt>)
    requires dim > 0 && Sized(s, dim) && (padding ==> dim <= LEAN_ISA_VECTOR_LEN)
    requires p.data + Flatten(PadAll(s, padding)) <= data
    ensures Matches(sp, dim, padding, p, AddExtension(s), data)
  {
    var flat := Flatten(PadAll(s, padding));
    WrittenNext(p.data, flat, data);
    TakesWritten(sp, dim, padding, data, Verifier(p.challenger, |p.data|), s, flat);
  }

  /** One write and its matching read: same challenger, same position, same values. */
  lemma StepsMatch<C(!new)>(sp: Sponge<C>, dim: nat, padding: bool, p: Prover<C>, w: Write, data: seq<Felt>)
    requires dim > 0 && Grinds(sp) && Writable(w, dim, padding) && (padding ==> dim <= LEAN_ISA_VECTOR_LEN)
    requires ProverStep(sp, dim, padding, p, w).data <= data
    ensures Matches(sp, dim, padding, p, w, data)
  {
    var v := Verifier(p.challenger, |p.data|);
    WrittenNext(p.data, Written(sp, padding, p.challenger, w), data);
    match w
    case AddBase(s) => BaseMatches(sp, dim, padding, p, s, data);
    case AddExtension(s) => ExtensionMatches(sp, dim, padding, p, s, data);
    case HintBase(s) => TakesScalars(sp, data, v, s, false);
    case HintExtension(s) => HintMatches(sp, dim, padding, p, s, data);
    case Grind(bits) => WitnessMatches(sp, dim, padding, p, bits, data);
    case _ =>
  }

  ghost function MatchingAll(script: seq<Write>): seq<Read> {
    seq(|script|, i requires 0 <= i < |script| => Matching(script[i]))
  }

  ghost predicate AllWritable(script: seq<Write>, dim: nat, padding: bool) {
    forall w :: w in script ==> Writable(w, dim, padding)
  }

  lemma {:induction false} LockStepOn<C(!new)>(sp: Sponge<C>, dim: nat, padding: bool, c: C, script: seq<Write>, data: seq<Felt>)
    requires dim > 0 && Grinds(sp) && AllWritable(script, dim, padding) && (padding ==> dim <= LEAN_ISA_VECTOR_LEN)
    requires ProverRun(sp, dim, padding, c, script).data <= data
    ensures var p := ProverRun(sp, dim, padding, c, script);
            VerifierRun(sp, dim, padding, data, c, MatchingAll(script))
            == Ok((Verifier(p.challenger, |p.data|), ProverEvents(sp, dim, padding, c, script)))
  {
    if script != [] {
      var init, last := script[..|script| - 1], script[|script| - 1];
      var p := ProverRun(sp, dim, padding, c, init);
      LockStepOn(sp, dim, padding, c, init, data);
      StepsMatch(sp, dim, padding, p, last, data);
      assert MatchingAll(script)[..|script| - 1] == MatchingAll(init);
    }
  }

  /** On the prover's own proof the verifier never runs out of data, reads the same
      scalars, samples the same challenges and stops exactly at the end. */
  lemma Completeness<C(!new)>(sp: Sponge<C>, dim: nat, padding: bool, c: C, script: seq<Write>)
    requires dim > 0 && Grinds(sp) && AllWritable(script, dim, padding) && (padding ==> dim <= LEAN_ISA_VECTOR_LEN)
    ensures var p := ProverRun(sp, dim, padding, c, script);
            VerifierRun(sp, dim, padding, p.data, c, MatchingAll(script))
            == Ok((Verifier(p.challenger, |p.data|), ProverEvents(sp, dim, padding, c, script)))
  {
    LockStepOn(sp, dim, padding, c, script, ProverRun(sp, dim, padding, c, script).data);
  }

  // -------------------------------------------------------------------- lengths

  /** How many scalars a read takes from the proof. */
  function Takes(r: Read, dim: nat, padding: bool): nat {
    match r
    case NextBase(n) => n
    case NextExtension(n) => Span(n, Width(dim, padding))
    case ReceiveHintBase(n) => n
    case ReceiveHintExtension(n) => Span(n, dim)
    case CheckGrinding(bits) => if bits == 0 then 0 else WitnessWidth(padding)
    case _ => 0
  }

  function TakesAll(script: seq<Read>, dim: nat, padding: bool): nat {
    if script == [] then 0
    else TakesAll(script[..|script| - 1], dim, padding) + Takes(script[|script| - 1], dim, padding)
  }

  lemma {:induction false} ExtensionTakes<C>(sp: Sponge<C>, dim: nat, padding: bool, data: seq<Felt>, v: Verifier<C>, n: nat)
    requires v.index <= |data| && (padding ==> dim <= LEAN_ISA_VECTOR_LEN)
    ensures TakeExtension(sp, dim, padding, data, v, n).Ok? ==>
              TakeExtension(sp, dim, padding, data, v, n).value.0.index == v.index + Span(n, Width(dim, padding))
  {
    if n > 0 {
      ExtensionTakes(sp, dim, padding, data, v, n - 1);
    }
  }

  lemma StepTakes<C>(sp: Sponge<C>, dim: nat, padding: bool, data: seq<Felt>, v: Verifier<C>, r: Read)
    requires dim > 0 && v.index <= |data| && (padding ==> dim <= LEAN_ISA_VECTOR_LEN)
    ensures VerifierStep(sp, dim, padding, data, v, r).Ok? ==>
              VerifierStep(sp, dim, padding, data, v, r).value.0.index == v.index + Takes(r, dim, padding)
  {
    match r
    case NextExtension(n) => ExtensionTakes(sp, dim, padding, data, v, n);
    case _ =>
  }

  /** Whatever the proof, a verifier that finishes has read what its script takes; so a
      proof that is too short is always refused. */
  lemma {:induction false} FinishedRead<C>(sp: Sponge<C>, dim: nat, padding: bool, data: seq<Felt>, c: C, script: seq<Read>)
    requires dim > 0 && (padding ==> dim <= LEAN_ISA_VECTOR_LEN)
    ensures VerifierRun(sp, dim, padding, data, c, script).Ok? ==>
              VerifierRun(sp, dim, padding, data, c, script).value.0.index == TakesAll(script, dim, padding) <= |data|
  {
    if script != [] {
      var init := script[..|script| - 1];
      FinishedRead(sp, dim, padding, data, c, init);
      var before := VerifierRun(sp, dim, padding, data, c, init);
      if before.Ok? {
        StepTakes(sp, dim, padding, data, before.value.0, script[|script| - 1]);
      }
    }
  }

  lemma {:induction false} SpanAdds(n: nat, a: nat, b: nat)
    ensures Span(n, a + b) == Span(n, a) + Span(n, b)
  {
    if n > 0 {
      SpanAdds(n - 1, a, b);
    }
  }

  lemma WrittenLength<C>(sp: Sponge<C>, dim: nat, padding: bool, c: C, w: Write)
    requires Writable(w, dim, padding)
    ensures |Written(sp, padding, c, w)| == Takes(Matching(w), dim, padding)
    ensures Takes(Matching(w), dim, padding) == Takes(Matching(w), dim, false) + Filler(padding, dim, w)
  {
    match w
    case AddExtension(s) =>
      PaddedSized(s, dim, padding);
      if padding {
        SpanAdds(|s|, dim, LEAN_ISA_VECTOR_LEN - dim);
      }
    case HintExtension(s) => FlattenLength(s, dim);
    case _ =>
  }

  lemma {:induction false} ProofLength<C>(sp: Sponge<C>, dim: nat, padding: bool, c: C, script: seq<Write>)
    requires AllWritable(script, dim, padding)
    ensures var p := ProverRun(sp, dim, padding, c, script);
            && |p.data| == TakesAll(MatchingAll(script), dim, padding)
            && |p.data| == TakesAll(MatchingAll(script), dim, false) + p.zeros
  {
    if script != [] {
      var init, last := script[..|script| - 1], script[|script| - 1];
      ProofLength(sp, dim, padding, c, init);
      WrittenLength(sp, dim, padding, ProverRun(sp, dim, padding, c, init).challenger, last);
      assert MatchingAll(script)[..|script| - 1] == MatchingAll(init);
    }
  }

  /** The reported proof size is the length the same script has without padding. */
  lemma ProofSizeIsUnpadded<C>(sp: Sponge<C>, dim: nat, c: C, script: seq<Write>)
    requires AllWritable(script, dim, true)
    ensures var p := ProverRun(sp, dim, true, c, script);
            |p.data| - p.zeros == |ProverRun(sp, dim, false, c, script).data|
  {
    assert AllWritable(script, dim, false);
    ProofLength(sp, dim, true, c, script);
    ProofLength(sp, dim, false, c, script);
  }
}
