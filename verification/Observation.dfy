/** What reaches the challenger: everything that is added, in order, and nothing else. */
module Observation {
  import opened Containers
  import opened Transcript
  import opened LockStep
  import opened Seal

  // ------------------------------------------------------------------ what is added

  /** Extension scalars in a row, each filled up with zeros to a whole vector if padded. */
  function FilledRow(values: seq<Ext>, padding: bool): seq<Felt> {
    if values == [] then []
    else
      var last := values[|values| - 1];
      FilledRow(values[..|values| - 1], padding) + last
      + seq(if padding && |last| < LEAN_ISA_VECTOR_LEN then LEAN_ISA_VECTOR_LEN - |last| else 0, _ => 0)
  }

  /** The scalars a write adds to the transcript; hints are not part of it. */
  function Added(w: Write, padding: bool): seq<Felt> {
    match w
    case AddBase(s) => s
    case AddExtension(s) => FilledRow(s, padding)
    case _ => []
  }

  function AddedAll(script: seq<Write>, padding: bool): seq<Felt> {
    if script == [] then [] else AddedAll(script[..|script| - 1], padding) + Added(script[|script| - 1], padding)
  }

  lemma {:induction false} FilledRowIsPadded(values: seq<Ext>, padding: bool)
    ensures FilledRow(values, padding) == Flatten(PadAll(values, padding))
  {
    if values != [] {
      FilledRowIsPadded(values[..|values| - 1], padding);
      PadAllInit(values, padding);
    }
  }

  // --------------------------------------------------------------------- recordings

  /** A sponge that writes down what it observes and does nothing else. Sealed. */
  ghost predicate Records(sp: Sponge<seq<Felt>>) {
    forall k: int :: Opens(k) ==>
      && (forall c, x: Felt :: sp.observe(c, x) == c + [x])
      && (forall c :: sp.sample(c).0 == c)
      && (forall c, width: nat :: sp.sampleBits(c, width).0 == c)
  }

  lemma RecordsOne(sp: Sponge<seq<Felt>>, c: seq<Felt>, x: Felt, width: nat)
    requires Records(sp)
    ensures sp.observe(c, x) == c + [x] && sp.sample(c).0 == c && sp.sampleBits(c, width).0 == c
  {
    assert Opens(0);
  }

  lemma {:induction false} AbsorbRecords(sp: Sponge<seq<Felt>>, c: seq<Felt>, scalars: seq<Felt>)
    requires Records(sp)
    ensures Absorb(sp, c, scalars) == c + scalars
  {
    if scalars != [] {
      AbsorbRecords(sp, c, scalars[..|scalars| - 1]);
      RecordsOne(sp, c + scalars[..|scalars| - 1], scalars[|scalars| - 1], 0);
    }
  }

  lemma {:induction false} DrawRecords(sp: Sponge<seq<Felt>>, c: seq<Felt>, len: nat)
    requires Records(sp)
    ensures Draw(sp, c, len).0 == c
  {
    if len > 0 {
      DrawRecords(sp, c, len - 1);
      RecordsOne(sp, c, 0, 0);
    }
  }

  ghost predicate Grindless(script: seq<Write>) {
    forall w :: w in script && w.Grind? ==> w.bits == 0
  }

  lemma Appended<T>(a: seq<T>, b: seq<T>, c: seq<T>)
    ensures a + b + c == a + (b + c)
  {
  }

  lemma WriteRecords(sp: Sponge<seq<Felt>>, padding: bool, c: seq<Felt>, w: Write)
    requires Records(sp) && (w.Grind? ==> w.bits == 0)
    ensures Challenged(sp, padding, c, w) == c + Added(w, padding)
  {
    match w
    case AddBase(s) => AbsorbRecords(sp, c, s);
    case AddExtension(s) =>
      FilledRowIsPadded(s, padding);
      AbsorbRecords(sp, c, FilledRow(s, padding));
    case Sample(len) => DrawRecords(sp, c, len);
    case SampleBits(width) => RecordsOne(sp, c, 0, width);
    case _ =>
  }

  /** The prover's challenger observes exactly the scalars that are added, in order, with
      their padding, and no hint. */
  lemma {:induction false} ProverObserves(sp: Sponge<seq<Felt>>, dim: nat, padding: bool, c: seq<Felt>, script: seq<Write>)
    requires Records(sp) && Grindless(script)
    ensures ProverRun(sp, dim, padding, c, script).challenger == c + AddedAll(script, padding)
  {
    if script != [] {
      var init, last := script[..|script| - 1], script[|script| - 1];
      ProverObserves(sp, dim, padding, c, init);
      WriteRecords(sp, padding, ProverRun(sp, dim, padding, c, init).challenger, last);
      Appended(c, AddedAll(init, padding), Added(last, padding));
    }
  }

  /** The part of a proof that a script reads as transcript, not as hints. */
  function Heard(data: seq<Felt>, script: seq<Read>, dim: nat, padding: bool): seq<Felt>
    requires TakesAll(script, dim, padding) <= |data|
  {
    if script == [] then []
    else
      var init, last := script[..|script| - 1], script[|script| - 1];
      Heard(data, init, dim, padding)
      + if last.NextBase? || last.NextExtension? then data[TakesAll(init, dim, padding)..TakesAll(script, dim, padding)] else []
  }

  /** The challenger has observed what lies between the two positions. */
  ghost predicate HeardBetween(data: seq<Felt>, v: Verifier<seq<Felt>>, v': Verifier<seq<Felt>>) {
    v.index <= v'.index <= |data| && v'.challenger == v.challenger + data[v.index..v'.index]
  }

  lemma HeardOn(data: seq<Felt>, v: Verifier<seq<Felt>>, v1: Verifier<seq<Felt>>, v2: Verifier<seq<Felt>>)
    requires HeardBetween(data, v, v1) && HeardBetween(data, v1, v2)
    ensures HeardBetween(data, v, v2)
  {
    assert data[v.index..v1.index] + data[v1.index..v2.index] == data[v.index..v2.index];
  }

  lemma OneRecords(sp: Sponge<seq<Felt>>, dim: nat, padding: bool, data: seq<Felt>, v: Verifier<seq<Felt>>)
    requires Records(sp) && v.index <= |data| && (padding ==> dim <= LEAN_ISA_VECTOR_LEN)
    ensures var taken := TakeOne(sp, dim, padding, data, v); taken.Ok? ==> HeardBetween(data, v, taken.value.0)
  {
    var width := Width(dim, padding);
    if v.index + width <= |data| {
      AbsorbRecords(sp, v.challenger, data[v.index..v.index + width]);
    }
  }

  lemma {:induction false} ExtensionRecords(sp: Sponge<seq<Felt>>, dim: nat, padding: bool, data: seq<Felt>,
                                            v: Verifier<seq<Felt>>, n: nat)
    requires Records(sp) && v.index <= |data| && (padding ==> dim <= LEAN_ISA_VECTOR_LEN)
    ensures var taken := TakeExtension(sp, dim, padding, data, v, n); taken.Ok? ==> HeardBetween(data, v, taken.value.0)
  {
    if n > 0 {
      ExtensionRecords(sp, dim, padding, data, v, n - 1);
      var before := TakeExtension(sp, dim, padding, data, v, n - 1);
      if before.Ok? {
        OneRecords(sp, dim, padding, data, before.value.0);
        if TakeOne(sp, dim, padding, data, before.value.0).Ok? {
          HeardOn(data, v, before.value.0, TakeOne(sp, dim, padding, data, before.value.0).value.0);
        }
      }
    }
  }

  lemma ReadRecords(sp: Sponge<seq<Felt>>, dim: nat, padding: bool, data: seq<Felt>, v: Verifier<seq<Felt>>, r: Read)
    requires Records(sp) && dim > 0 && v.index <= |data| && (padding ==> dim <= LEAN_ISA_VECTOR_LEN)
    requires r.CheckGrinding? ==> r.bits == 0
    ensures var out := VerifierStep(sp, dim, padding, data, v, r);
            out.Ok? ==>
              && v.index <= out.value.0.index
              && out.value.0.challenger ==
                 v.challenger + if r.NextBase? || r.NextExtension? then data[v.index..out.value.0.index] else []
  {
    match r
    case NextBase(n) =>
      if v.index + n <= |data| {
        AbsorbRecords(sp, v.challenger, data[v.index..v.index + n]);
      }
    case NextExtension(n) => ExtensionRecords(sp, dim, padding, data, v, n);
    case Resample(len) => DrawRecords(sp, v.challenger, len);
    case ResampleBits(width) => RecordsOne(sp, v.challenger, 0, width);
    case _ =>
  }

  /** The verifier after a read of a run, with what it has heard of the proof in between. */
  lemma HeardNext(sp: Sponge<seq<Felt>>, dim: nat, padding: bool, data: seq<Felt>, c: seq<Felt>, script: seq<Read>,
                  v: Verifier<seq<Felt>>, v': Verifier<seq<Felt>>)
    requires script != [] && TakesAll(script, dim, padding) <= |data|
    requires var init, last := script[..|script| - 1], script[|script| - 1];
             && v.index == TakesAll(init, dim, padding) <= v'.index == TakesAll(script, dim, padding)
             && v.challenger == c + Heard(data, init, dim, padding)
             && v'.challenger == v.challenger + if last.NextBase? || last.NextExtension? then data[v.index..v'.index] else []
    ensures v'.challenger == c + Heard(data, script, dim, padding)
  {
    var last := script[|script| - 1];
    Appended(c, Heard(data, script[..|script| - 1], dim, padding),
             if last.NextBase? || last.NextExtension? then data[v.index..v'.index] else []);
  }

  /** Whatever the proof, the verifier's challenger observes exactly what it reads as
      transcript, padding included, and none of what it reads as hints. */
  lemma {:induction false} VerifierObserves(sp: Sponge<seq<Felt>>, dim: nat, padding: bool, data: seq<Felt>, c: seq<Felt>,
                                            script: seq<Read>)
    requires Records(sp) && dim > 0 && (padding ==> dim <= LEAN_ISA_VECTOR_LEN)
    requires forall r :: r in script && r.CheckGrinding? ==> r.bits == 0
    requires VerifierRun(sp, dim, padding, data, c, script).Ok?
    ensures TakesAll(script, dim, padding) <= |data|
    ensures VerifierRun(sp, dim, padding, data, c, script).value.0.challenger == c + Heard(data, script, dim, padding)
  {
    FinishedRead(sp, dim, padding, data, c, script);
    if script != [] {
      var init, last := script[..|script| - 1], script[|script| - 1];
      var before := VerifierRun(sp, dim, padding, data, c, init);
      VerifierObserves(sp, dim, padding, data, c, init);
      FinishedRead(sp, dim, padding, data, c, init);
      ReadRecords(sp, dim, padding, data, before.value.0, last);
      HeardNext(sp, dim, padding, data, c, script, before.value.0, VerifierRun(sp, dim, padding, data, c, script).value.0);
    }
  }

  /** Challenge `i` of a row is what the sponge yields after the first `i`. */
  lemma {:induction false} DrawSamples<C>(sp: Sponge<C>, c: C, len: nat, i: nat)
    requires i < len
    ensures Draw(sp, c, 0).0 == c && |Draw(sp, c, len).1| == len
    ensures var (next, e) := sp.sample(Draw(sp, c, i).0); Draw(sp, c, i + 1).0 == next && Draw(sp, c, len).1[i] == e
  {
    if i < len - 1 {
      DrawSamples(sp, c, len - 1, i);
    } else if i > 0 {
      DrawSamples(sp, c, i, i - 1);
    }
  }

  // -------------------------------------------------------------------------- traces

  /** What can happen to a sponge. */
  datatype Call = Observed(x: Felt) | Sampled | SampledBits(width: nat) | Witnessed(bits: nat)

  /** A sponge that writes down everything. */
  ghost predicate Traces(sp: Sponge<seq<Call>>) {
    && (forall c, x: Felt :: sp.observe(c, x) == c + [Observed(x)])
    && (forall c :: sp.sample(c).0 == c + [Sampled])
    && (forall c, width: nat :: sp.sampleBits(c, width).0 == c + [SampledBits(width)])
    && (forall c, bits: nat :: sp.grind(c, bits).0 == c + [Witnessed(bits)])
  }

  function Calls(w: Write, padding: bool): seq<Call> {
    match w
    case Sample(len) => seq(len, _ => Sampled)
    case SampleBits(width) => [SampledBits(width)]
    case Grind(bits) => if bits == 0 then [] else [Witnessed(bits)]
    case _ => var added := Added(w, padding); seq(|added|, i requires 0 <= i < |added| => Observed(added[i]))
  }

  function AllCalls(script: seq<Write>, padding: bool): seq<Call> {
    if script == [] then [] else AllCalls(script[..|script| - 1], padding) + Calls(script[|script| - 1], padding)
  }

  lemma {:induction false} AbsorbTraces(sp: Sponge<seq<Call>>, c: seq<Call>, scalars: seq<Felt>)
    requires Traces(sp)
    ensures Absorb(sp, c, scalars) == c + Calls(AddBase(scalars), false)
  {
    if scalars != [] {
      var init := scalars[..|scalars| - 1];
      AbsorbTraces(sp, c, init);
      assert Calls(AddBase(scalars), false) == Calls(AddBase(init), false) + [Observed(scalars[|scalars| - 1])];
    }
  }

  lemma {:induction false} DrawTraces(sp: Sponge<seq<Call>>, c: seq<Call>, len: nat)
    requires Traces(sp)
    ensures Draw(sp, c, len).0 == c + Calls(Sample(len), false)
  {
    if len > 0 {
      DrawTraces(sp, c, len - 1);
    }
  }

  lemma WriteTraces(sp: Sponge<seq<Call>>, padding: bool, c: seq<Call>, w: Write)
    requires Traces(sp)
    ensures Challenged(sp, padding, c, w) == c + Calls(w, padding)
  {
    match w
    case AddBase(s) => AbsorbTraces(sp, c, s);
    case AddExtension(s) =>
      FilledRowIsPadded(s, padding);
      AbsorbTraces(sp, c, FilledRow(s, padding));
    case Sample(len) => DrawTraces(sp, c, len);
    case _ =>
  }

  /** The challenger goes through exactly these calls, in the order of the script. */
  lemma {:induction false} ProverCalls(sp: Sponge<seq<Call>>, dim: nat, padding: bool, c: seq<Call>, script: seq<Write>)
    requires Traces(sp)
    ensures ProverRun(sp, dim, padding, c, script).challenger == c + AllCalls(script, padding)
  {
    if script != [] {
      var init, last := script[..|script| - 1], script[|script| - 1];
      ProverCalls(sp, dim, padding, c, init);
      WriteTraces(sp, padding, ProverRun(sp, dim, padding, c, init).challenger, last);
    }
  }

  // ------------------------------------------------------------------------- binding

  /** Observing mixes nothing up. */
  ghost predicate InjectiveObserve<C(!new)>(sp: Sponge<C>) {
    forall c, d, x: Felt, y: Felt :: sp.observe(c, x) == sp.observe(d, y) ==> c == d && x == y
  }

  /** Nor does what the write does to the challenger beyond observing. */
  ghost predicate KeepsApart<C(!new)>(sp: Sponge<C>, w: Write) {
    match w
    case Sample(_) => forall c, d :: sp.sample(c).0 == sp.sample(d).0 ==> c == d
    case SampleBits(width) => forall c, d :: sp.sampleBits(c, width).0 == sp.sampleBits(d, width).0 ==> c == d
    case Grind(bits) => bits == 0 || forall c, d :: sp.grind(c, bits).0 == sp.grind(d, bits).0 ==> c == d
    case _ => true
  }

  lemma {:induction false} AbsorbBinds<C(!new)>(sp: Sponge<C>, c: C, d: C, a: seq<Felt>, b: seq<Felt>)
    requires InjectiveObserve(sp) && |a| == |b| && Absorb(sp, c, a) == Absorb(sp, d, b)
    ensures c == d && a == b
  {
    if a != [] {
      AbsorbBinds(sp, c, d, a[..|a| - 1], b[..|b| - 1]);
    }
  }

  lemma {:induction false} DrawBinds<C(!new)>(sp: Sponge<C>, c: C, d: C, len: nat)
    requires KeepsApart(sp, Sample(len)) && Draw(sp, c, len).0 == Draw(sp, d, len).0
    ensures c == d
  {
    if len > 0 {
      DrawBinds(sp, c, d, len - 1);
    }
  }

  lemma PaddedBinds(a: Ext, b: Ext, padding: bool)
    requires |a| == |b| && Padded(a, padding) == Padded(b, padding)
    ensures a == b
  {
    assert Padded(a, padding)[..|a|] == a && Padded(b, padding)[..|b|] == b;
  }

  lemma PadAllBinds(a: seq<Ext>, b: seq<Ext>, dim: nat, padding: bool)
    requires Sized(a, dim) && Sized(b, dim) && PadAll(a, padding) == PadAll(b, padding)
    ensures a == b
  {
    assert |a| == |PadAll(a, padding)| == |PadAll(b, padding)| == |b|;
    forall i | 0 <= i < |a|
      ensures a[i] == b[i]
    {
      assert PadAll(a, padding)[i] == PadAll(b, padding)[i];
      PaddedBinds(a[i], b[i], padding);
    }
  }

  lemma PadAllSized(scalars: seq<Ext>, dim: nat, padding: bool)
    requires Sized(scalars, dim) && (padding ==> dim <= LEAN_ISA_VECTOR_LEN)
    ensures Sized(PadAll(scalars, padding), Width(dim, padding))
  {
  }

  /** Padding and flattening lose nothing. */
  lemma PaddingBinds(a: seq<Ext>, b: seq<Ext>, dim: nat, padding: bool)
    requires dim > 0 && Sized(a, dim) && Sized(b, dim) && (padding ==> dim <= LEAN_ISA_VECTOR_LEN)
    requires Flatten(PadAll(a, padding)) == Flatten(PadAll(b, padding))
    ensures a == b
  {
    PadAllSized(a, dim, padding);
    PadAllSized(b, dim, padding);
    ChunksOfFlatten(PadAll(a, padding), Width(dim, padding));
    ChunksOfFlatten(PadAll(b, padding), Width(dim, padding));
    PadAllBinds(a, b, dim, padding);
  }

  /** The writes add the same scalars. */
  predicate SameAdded(a: Write, b: Write) {
    (a.AddBase? ==> a == b) && (a.AddExtension? ==> a == b)
  }

  lemma WriteBinds<C(!new)>(sp: Sponge<C>, dim: nat, padding: bool, c: C, d: C, a: Write, b: Write)
    requires dim > 0 && (padding ==> dim <= LEAN_ISA_VECTOR_LEN)
    requires InjectiveObserve(sp) && KeepsApart(sp, a) && Matching(a) == Matching(b)
    requires Writable(a, dim, padding) && Writable(b, dim, padding)
    ensures Challenged(sp, padding, c, a) == Challenged(sp, padding, d, b) ==> c == d && SameAdded(a, b)
    ensures c == d && SameAdded(a, b) ==> Challenged(sp, padding, c, a) == Challenged(sp, padding, d, b)
  {
    if Challenged(sp, padding, c, a) == Challenged(sp, padding, d, b) {
      match a
      case AddBase(s) => AbsorbBinds(sp, c, d, s, b.scalars);
      case AddExtension(s) =>
        PaddedSized(s, dim, padding);
        PaddedSized(b.values, dim, padding);
        AbsorbBinds(sp, c, d, Flatten(PadAll(s, padding)), Flatten(PadAll(b.values, padding)));
        PaddingBinds(s, b.values, dim, padding);
      case Sample(len) => DrawBinds(sp, c, d, len);
      case _ =>
    }
  }

  ghost predicate AllSameAdded(left: seq<Write>, right: seq<Write>)
    requires |left| == |right|
  {
    forall i :: 0 <= i < |left| ==> SameAdded(left[i], right[i])
  }

  lemma SameAddedMore(left: seq<Write>, right: seq<Write>, k: nat)
    requires |left| == |right| == k + 1
    ensures AllSameAdded(left, right) <==> AllSameAdded(left[..k], right[..k]) && SameAdded(left[k], right[k])
  {
    assert forall i :: 0 <= i < k ==> left[..k][i] == left[i] && right[..k][i] == right[i];
  }

  lemma SameShapeBefore(left: seq<Write>, right: seq<Write>, k: nat)
    requires MatchingAll(left) == MatchingAll(right) && |left| == |right| == k + 1
    ensures MatchingAll(left[..k]) == MatchingAll(right[..k]) && Matching(left[k]) == Matching(right[k])
  {
    assert MatchingAll(left)[k] == MatchingAll(right)[k];
    assert MatchingAll(left[..k]) == MatchingAll(left)[..k];
    assert MatchingAll(right[..k]) == MatchingAll(right)[..k];
  }

  /** Challengers bind what was added before: after two scripts of the same shape the
      challenger is the same exactly when they added the same scalars. */
  lemma {:induction false} ChallengerBinds<C(!new)>(sp: Sponge<C>, dim: nat, padding: bool, c: C, left: seq<Write>, right: seq<Write>)
    requires dim > 0 && (padding ==> dim <= LEAN_ISA_VECTOR_LEN)
    requires InjectiveObserve(sp) && forall w :: w in left ==> KeepsApart(sp, w)
    requires |left| == |right| && MatchingAll(left) == MatchingAll(right)
    requires AllWritable(left, dim, padding) && AllWritable(right, dim, padding)
    ensures ProverRun(sp, dim, padding, c, left).challenger == ProverRun(sp, dim, padding, c, right).challenger <==>
            AllSameAdded(left, right)
  {
    if left != [] {
      var k := |left| - 1;
      var p, q := ProverRun(sp, dim, padding, c, left[..k]), ProverRun(sp, dim, padding, c, right[..k]);
      SameShapeBefore(left, right, k);
      ChallengerBinds(sp, dim, padding, c, left[..k], right[..k]);
      WriteBinds(sp, dim, padding, p.challenger, q.challenger, left[k], right[k]);
      SameAddedMore(left, right, k);
    }
  }
}
