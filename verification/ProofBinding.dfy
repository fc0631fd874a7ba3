/** Which positions of a proof a verifier's run depends on. */
module ProofBinding {
  import opened Containers
  import opened Transcript
  import opened LockStep

  /** The fillers behind a grinding witness, which no read looks at. */
  ghost function Slack(script: seq<Read>, dim: nat, padding: bool): iset<nat> {
    if script == [] then iset{}
    else
      var init, last := script[..|script| - 1], script[|script| - 1];
      Slack(init, dim, padding) + SlackAt(TakesAll(init, dim, padding), last, padding)
  }

  ghost function SlackAt(at: nat, r: Read, padding: bool): iset<nat> {
    iset p: nat | Behind(at, r, padding, p)
  }

  /** The position is one of the fillers behind the witness at `at`. */
  ghost predicate Behind(at: nat, r: Read, padding: bool, p: nat) {
    r.CheckGrinding? && r.bits > 0 && at < p < at + WitnessWidth(padding)
  }

  /** The positions of the grinding witnesses. */
  ghost function Witnesses(script: seq<Read>, dim: nat, padding: bool): iset<nat> {
    if script == [] then iset{}
    else
      var init, last := script[..|script| - 1], script[|script| - 1];
      Witnesses(init, dim, padding) + if last.CheckGrinding? && last.bits > 0 then iset{TakesAll(init, dim, padding)} else iset{}
  }

  /** Two proofs of one length agree from `lo` to `hi`, except at some positions. */
  ghost predicate Agree(data: seq<Felt>, data': seq<Felt>, lo: nat, hi: nat, except: iset<nat>) {
    |data| == |data'| && forall p :: lo <= p < hi && p < |data| && p !in except ==> data[p] == data'[p]
  }

  lemma {:induction false} SlackBelow(script: seq<Read>, dim: nat, padding: bool)
    ensures forall p :: p in Slack(script, dim, padding) ==> p < TakesAll(script, dim, padding)
    ensures forall p :: p in Witnesses(script, dim, padding) ==> p < TakesAll(script, dim, padding)
  {
    if script != [] {
      SlackBelow(script[..|script| - 1], dim, padding);
    }
  }

  // --------------------------------------------------- what agrees is read alike

  lemma AgreeSlice(data: seq<Felt>, data': seq<Felt>, at: nat, n: nat)
    requires Agree(data, data', at, at + n, iset{}) && at + n <= |data|
    ensures data[at..at + n] == data'[at..at + n]
  {
  }

  lemma AgreePart(data: seq<Felt>, data': seq<Felt>, lo: nat, hi: nat, lo': nat, hi': nat)
    requires Agree(data, data', lo, hi, iset{}) && lo <= lo' && hi' <= hi
    ensures Agree(data, data', lo', hi', iset{})
  {
  }

  lemma SameBase<C>(sp: Sponge<C>, data: seq<Felt>, data': seq<Felt>, v: Verifier<C>, n: nat, observe: bool)
    requires v.index <= |data| && Agree(data, data', v.index, v.index + n, iset{})
    ensures TakeBase(sp, data, v, n, observe) == TakeBase(sp, data', v, n, observe)
  {
    if n <= |data| - v.index {
      AgreeSlice(data, data', v.index, n);
    }
  }

  lemma SameOne<C>(sp: Sponge<C>, dim: nat, padding: bool, data: seq<Felt>, data': seq<Felt>, v: Verifier<C>)
    requires v.index <= |data| && (padding ==> dim <= LEAN_ISA_VECTOR_LEN)
    requires Agree(data, data', v.index, v.index + Width(dim, padding), iset{})
    ensures TakeOne(sp, dim, padding, data, v) == TakeOne(sp, dim, padding, data', v)
  {
    SameBase(sp, data, data', v, Width(dim, padding), true);
  }

  lemma {:induction false} SameExtension<C>(sp: Sponge<C>, dim: nat, padding: bool, data: seq<Felt>, data': seq<Felt>,
                                            v: Verifier<C>, n: nat)
    requires v.index <= |data| && (padding ==> dim <= LEAN_ISA_VECTOR_LEN)
    requires Agree(data, data', v.index, v.index + Span(n, Width(dim, padding)), iset{})
    ensures TakeExtension(sp, dim, padding, data, v, n) == TakeExtension(sp, dim, padding, data', v, n)
  {
    if n > 0 {
      var at, w := v.index + Span(n - 1, Width(dim, padding)), Width(dim, padding);
      AgreePart(data, data', v.index, at + w, v.index, at);
      SameExtension(sp, dim, padding, data, data', v, n - 1);
      ExtensionTakes(sp, dim, padding, data, v, n - 1);
      var before := TakeExtension(sp, dim, padding, data, v, n - 1);
      if before.Ok? {
        AgreePart(data, data', v.index, at + w, at, at + w);
        SameOne(sp, dim, padding, data, data', before.value.0);
      }
    }
  }

  lemma SameWitness<C>(sp: Sponge<C>, dim: nat, padding: bool, data: seq<Felt>, data': seq<Felt>, v: Verifier<C>, bits: nat)
    requires dim > 0 && v.index <= |data| && (padding ==> dim <= LEAN_ISA_VECTOR_LEN) && |data| == |data'|
    requires bits > 0 && v.index < |data| ==> data[v.index] == data'[v.index]
    ensures VerifierStep(sp, dim, padding, data, v, CheckGrinding(bits)) ==
            VerifierStep(sp, dim, padding, data', v, CheckGrinding(bits))
  {
  }

  lemma SameStep<C>(sp: Sponge<C>, dim: nat, padding: bool, data: seq<Felt>, data': seq<Felt>, v: Verifier<C>, r: Read)
    requires dim > 0 && v.index <= |data| && (padding ==> dim <= LEAN_ISA_VECTOR_LEN)
    requires Agree(data, data', v.index, v.index + Takes(r, dim, padding), SlackAt(v.index, r, padding))
    ensures VerifierStep(sp, dim, padding, data, v, r) == VerifierStep(sp, dim, padding, data', v, r)
  {
    match r
    case NextBase(n) => SameBase(sp, data, data', v, n, true);
    case NextExtension(n) => SameExtension(sp, dim, padding, data, data', v, n);
    case ReceiveHintBase(n) => SameBase(sp, data, data', v, n, false);
    case ReceiveHintExtension(n) => SameBase(sp, data, data', v, Span(n, dim), false);
    case CheckGrinding(bits) => SameWitness(sp, dim, padding, data, data', v, bits);
    case _ =>
  }

  /** A run depends on nothing but the positions its script takes, without the slack. */
  lemma {:induction false} SameRun<C>(sp: Sponge<C>, dim: nat, padding: bool, data: seq<Felt>, data': seq<Felt>, c: C,
                                      script: seq<Read>)
    requires dim > 0 && (padding ==> dim <= LEAN_ISA_VECTOR_LEN)
    requires Agree(data, data', 0, TakesAll(script, dim, padding), Slack(script, dim, padding))
    ensures VerifierRun(sp, dim, padding, data, c, script) == VerifierRun(sp, dim, padding, data', c, script)
  {
    if script != [] {
      var init, last := script[..|script| - 1], script[|script| - 1];
      SlackBelow(init, dim, padding);
      SameRun(sp, dim, padding, data, data', c, init);
      FinishedRead(sp, dim, padding, data, c, init);
      var before := VerifierRun(sp, dim, padding, data, c, init);
      if before.Ok? {
        SameStep(sp, dim, padding, data, data', before.value.0, last);
      }
    }
  }

  // ------------------------------------------------------ what differs is noticed

  lemma {:induction false} FlattenOfChunks(data: seq<Felt>, dim: nat, n: nat)
    requires dim > 0 && |data| == Span(n, dim)
    ensures Flatten(Chunks(data, dim)) == data
  {
    if n > 0 {
      FlattenOfChunks(data[..|data| - dim], dim, n - 1);
    }
  }

  lemma SliceAgrees(data: seq<Felt>, data': seq<Felt>, at: nat, n: nat)
    requires |data| == |data'| && at + n <= |data| && data[at..at + n] == data'[at..at + n]
    ensures Agree(data, data', at, at + n, iset{})
  {
    forall p | at <= p < at + n
      ensures data[p] == data'[p]
    {
      assert data[p] == data[at..at + n][p - at];
      assert data'[p] == data'[at..at + n][p - at];
    }
  }

  lemma AgreeJoins(data: seq<Felt>, data': seq<Felt>, lo: nat, mid: nat, hi: nat)
    requires Agree(data, data', lo, mid, iset{}) && Agree(data, data', mid, hi, iset{})
    ensures Agree(data, data', lo, hi, iset{})
  {
  }

  /** Equal scalars with zero padding are equal in the proof. */
  lemma OneAgrees<C>(sp: Sponge<C>, dim: nat, padding: bool, data: seq<Felt>, data': seq<Felt>, v: Verifier<C>, v': Verifier<C>)
    requires |data| == |data'| && v.index == v'.index <= |data| && (padding ==> dim <= LEAN_ISA_VECTOR_LEN)
    requires TakeOne(sp, dim, padding, data, v).Ok? && TakeOne(sp, dim, padding, data', v').Ok?
    requires TakeOne(sp, dim, padding, data, v).value.1 == TakeOne(sp, dim, padding, data', v').value.1
    ensures Agree(data, data', v.index, v.index + Width(dim, padding), iset{})
  {
    var w := Width(dim, padding);
    var a, b := data[v.index..v.index + w], data'[v.index..v.index + w];
    assert ZeroFrom(a, dim) && ZeroFrom(b, dim) && a[..dim] == b[..dim];
    forall i | 0 <= i < w
      ensures a[i] == b[i]
    {
      if i < dim {
        assert a[i] == a[..dim][i] && b[i] == b[..dim][i];
      }
    }
    assert a == b;
    SliceAgrees(data, data', v.index, w);
  }

  lemma {:induction false} ExtensionAgrees<C>(sp: Sponge<C>, dim: nat, padding: bool, data: seq<Felt>, data': seq<Felt>,
                                              v: Verifier<C>, v': Verifier<C>, n: nat)
    requires |data| == |data'| && v.index == v'.index <= |data| && (padding ==> dim <= LEAN_ISA_VECTOR_LEN)
    requires TakeExtension(sp, dim, padding, data, v, n).Ok? && TakeExtension(sp, dim, padding, data', v', n).Ok?
    requires TakeExtension(sp, dim, padding, data, v, n).value.1 == TakeExtension(sp, dim, padding, data', v', n).value.1
    ensures Agree(data, data', v.index, v.index + Span(n, Width(dim, padding)), iset{})
  {
    if n > 0 {
      var v1, values, e := ExtensionLast(sp, dim, padding, data, v, n);
      var v1', values', e' := ExtensionLast(sp, dim, padding, data', v', n);
      SameLasts(values, e, values', e');
      ExtensionAgrees(sp, dim, padding, data, data', v, v', n - 1);
      OneAgrees(sp, dim, padding, data, data', v1, v1');
      AgreeJoins(data, data', v.index, v1.index, v1.index + Width(dim, padding));
    }
  }

  /** The last of several extension scalars. */
  lemma ExtensionLast<C>(sp: Sponge<C>, dim: nat, padding: bool, data: seq<Felt>, v: Verifier<C>, n: nat)
    returns (v1: Verifier<C>, values: seq<Ext>, e: Ext)
    requires n > 0 && v.index <= |data| && (padding ==> dim <= LEAN_ISA_VECTOR_LEN)
    requires TakeExtension(sp, dim, padding, data, v, n).Ok?
    ensures TakeExtension(sp, dim, padding, data, v, n - 1) == Ok((v1, values))
    ensures v1.index == v.index + Span(n - 1, Width(dim, padding)) <= |data|
    ensures TakeOne(sp, dim, padding, data, v1).Ok? && TakeOne(sp, dim, padding, data, v1).value.1 == e
    ensures TakeExtension(sp, dim, padding, data, v, n).value.1 == values + [e]
  {
    var before := TakeExtension(sp, dim, padding, data, v, n - 1).value;
    v1, values := before.0, before.1;
    e := TakeOne(sp, dim, padding, data, v1).value.1;
    ExtensionTakes(sp, dim, padding, data, v, n - 1);
  }

  lemma SameLasts<T>(a: seq<T>, x: T, b: seq<T>, y: T)
    requires a + [x] == b + [y]
    ensures a == b && x == y
  {
    assert |a| == |b|;
    assert (a + [x])[|a|] == x && (b + [y])[|b|] == y;
    assert (a + [x])[..|a|] == a && (b + [y])[..|b|] == b;
  }

  /** The positions a read shows to its caller, directly or by checking them. */
  ghost predicate Shows(r: Read) {
    !r.CheckGrinding?
  }

  lemma StepAgrees<C>(sp: Sponge<C>, dim: nat, padding: bool, data: seq<Felt>, data': seq<Felt>, v: Verifier<C>, v': Verifier<C>,
                      r: Read)
    requires dim > 0 && |data| == |data'| && v.index == v'.index <= |data| && (padding ==> dim <= LEAN_ISA_VECTOR_LEN)
    requires VerifierStep(sp, dim, padding, data, v, r).Ok? && VerifierStep(sp, dim, padding, data', v', r).Ok?
    requires VerifierStep(sp, dim, padding, data, v, r).value.1 == VerifierStep(sp, dim, padding, data', v', r).value.1
    ensures Shows(r) ==> Agree(data, data', v.index, v.index + Takes(r, dim, padding), iset{})
  {
    match r
    case NextBase(n) => BaseAgrees(sp, data, data', v, v', n, true);
    case NextExtension(n) => ExtensionAgrees(sp, dim, padding, data, data', v, v', n);
    case ReceiveHintBase(n) => BaseAgrees(sp, data, data', v, v', n, false);
    case ReceiveHintExtension(n) => HintAgrees(sp, dim, data, data', v, v', n);
    case _ =>
  }

  lemma BaseAgrees<C>(sp: Sponge<C>, data: seq<Felt>, data': seq<Felt>, v: Verifier<C>, v': Verifier<C>, n: nat, observe: bool)
    requires |data| == |data'| && v.index == v'.index <= |data|
    requires TakeBase(sp, data, v, n, observe).Ok? && TakeBase(sp, data', v', n, observe).Ok?
    requires TakeBase(sp, data, v, n, observe).value.1 == TakeBase(sp, data', v', n, observe).value.1
    ensures Agree(data, data', v.index, v.index + n, iset{})
  {
    SliceAgrees(data, data', v.index, n);
  }

  lemma HintAgrees<C>(sp: Sponge<C>, dim: nat, data: seq<Felt>, data': seq<Felt>, v: Verifier<C>, v': Verifier<C>, n: nat)
    requires dim > 0 && |data| == |data'| && v.index == v'.index <= |data|
    requires TakeBase(sp, data, v, Span(n, dim), false).Ok? && TakeBase(sp, data', v', Span(n, dim), false).Ok?
    requires Chunks(TakeBase(sp, data, v, Span(n, dim), false).value.1, dim) ==
             Chunks(TakeBase(sp, data', v', Span(n, dim), false).value.1, dim)
    ensures Agree(data, data', v.index, v.index + Span(n, dim), iset{})
  {
    FlattenOfChunks(TakeBase(sp, data, v, Span(n, dim), false).value.1, dim, n);
    FlattenOfChunks(TakeBase(sp, data', v', Span(n, dim), false).value.1, dim, n);
    BaseAgrees(sp, data, data', v, v', Span(n, dim), false);
  }

  /** Two proofs of one length that show the same events agree wherever the script reads
      something other than a grinding witness and its fillers. */
  lemma {:induction false} SameEventsAgree<C>(sp: Sponge<C>, dim: nat, padding: bool, data: seq<Felt>, data': seq<Felt>, c: C,
                                              script: seq<Read>)
    requires dim > 0 && |data| == |data'| && (padding ==> dim <= LEAN_ISA_VECTOR_LEN)
    requires VerifierRun(sp, dim, padding, data, c, script).Ok? && VerifierRun(sp, dim, padding, data', c, script).Ok?
    requires VerifierRun(sp, dim, padding, data, c, script).value.1 == VerifierRun(sp, dim, padding, data', c, script).value.1
    ensures Agree(data, data', 0, TakesAll(script, dim, padding),
                  Slack(script, dim, padding) + Witnesses(script, dim, padding))
  {
    if script != [] {
      var init, last := script[..|script| - 1], script[|script| - 1];
      var before, before' := VerifierRun(sp, dim, padding, data, c, init), VerifierRun(sp, dim, padding, data', c, init);
      var step, step' := VerifierStep(sp, dim, padding, data, before.value.0, last),
                         VerifierStep(sp, dim, padding, data', before'.value.0, last);
      SameLasts(before.value.1, step.value.1, before'.value.1, step'.value.1);
      SameEventsAgree(sp, dim, padding, data, data', c, init);
      FinishedRead(sp, dim, padding, data, c, init);
      FinishedRead(sp, dim, padding, data', c, init);
      StepAgrees(sp, dim, padding, data, data', before.value.0, before'.value.0, last);
      StepCovers(data, data', TakesAll(init, dim, padding), last, dim, padding);
    }
  }

  lemma StepCovers(data: seq<Felt>, data': seq<Felt>, at: nat, r: Read, dim: nat, padding: bool)
    requires |data| == |data'| && (Shows(r) ==> Agree(data, data', at, at + Takes(r, dim, padding), iset{}))
    ensures Agree(data, data', at, at + Takes(r, dim, padding),
                  SlackAt(at, r, padding) + if r.CheckGrinding? && r.bits > 0 then iset{at} else iset{})
  {
    if r.CheckGrinding? && r.bits > 0 {
      forall p | at <= p < at + Takes(r, dim, padding)
        ensures p == at || p in SlackAt(at, r, padding)
      {
        assert Behind(at, r, padding, p) || p == at;
      }
    }
  }

  /** Of two proofs with the same witnesses the verifier makes the same of both exactly
      when they agree outside the slack. */
  lemma BoundOutsideSlack<C>(sp: Sponge<C>, dim: nat, padding: bool, data: seq<Felt>, data': seq<Felt>, c: C, script: seq<Read>)
    requires dim > 0 && |data| == |data'| && (padding ==> dim <= LEAN_ISA_VECTOR_LEN)
    requires VerifierRun(sp, dim, padding, data, c, script).Ok?
    requires forall p :: p in Witnesses(script, dim, padding) && p < |data| ==> data[p] == data'[p]
    ensures VerifierRun(sp, dim, padding, data', c, script) == VerifierRun(sp, dim, padding, data, c, script) <==>
            Agree(data, data', 0, TakesAll(script, dim, padding), Slack(script, dim, padding))
  {
    if Agree(data, data', 0, TakesAll(script, dim, padding), Slack(script, dim, padding)) {
      SameRun(sp, dim, padding, data, data', c, script);
    }
    if VerifierRun(sp, dim, padding, data', c, script) == VerifierRun(sp, dim, padding, data, c, script) {
      SameEventsAgree(sp, dim, padding, data, data', c, script);
    }
  }

  /** So a finished proof can be altered in the slack, and the verifier does not notice. */
  lemma SlackUnnoticed<C(!new)>(sp: Sponge<C>, dim: nat, padding: bool, c: C, script: seq<Write>, data: seq<Felt>)
    requires dim > 0 && Grinds(sp) && AllWritable(script, dim, padding) && (padding ==> dim <= LEAN_ISA_VECTOR_LEN)
    requires var p := ProverRun(sp, dim, padding, c, script);
             Agree(p.data, data, 0, |p.data|, Slack(MatchingAll(script), dim, padding))
    ensures var p := ProverRun(sp, dim, padding, c, script);
            VerifierRun(sp, dim, padding, data, c, MatchingAll(script))
            == Ok((Verifier(p.challenger, |p.data|), ProverEvents(sp, dim, padding, c, script)))
  {
    var p := ProverRun(sp, dim, padding, c, script);
    ProofLength(sp, dim, padding, c, script);
    SameRun(sp, dim, padding, p.data, data, c, MatchingAll(script));
    Completeness(sp, dim, padding, c, script);
  }

  /** Without padding there is no slack. */
  lemma {:induction false} NoSlackUnpadded(script: seq<Read>, dim: nat)
    ensures Slack(script, dim, false) == iset{}
  {
    if script != [] {
      NoSlackUnpadded(script[..|script| - 1], dim);
    }
  }
}
