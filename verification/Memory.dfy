/** The two memory formulas: the tuner's out-of-memory prediction and the capacity of the model analysis. */
module Memory {
  import opened PatchAlgebra
  import opened Trials

  const GIB: real := 1073741824.0

  /** The part of the tuning configuration the prediction reads; None and 0 both mean unknown. */
  datatype Model = Model(
    kvPerToken: nat, slidingPerToken: nat, window: nat, statePerSlot: nat,
    budgetGib: real, dedicatedKv: bool, weightGib: real, overheadGib: real, batchedLow: nat)

  function Min(a: int, b: int): int { if a <= b then a else b }

  function Max(a: int, b: int): int { if a >= b then a else b }

  /** Tokens a sliding-window layer must hold for one sequence of the maximal length. */
  function WindowTokens(m: Model, len: int, batched: int): int {
    if m.window == 0 then len
    else Min(len, m.window - 1 + Batched(m, batched))
  }

  /** 0 batched tokens fall back to the lower end of the search range. */
  function Batched(m: Model, batched: int): int {
    if batched != 0 then batched else m.batchedLow
  }

  function Required(m: Model, p: Params): int {
    Max(m.kvPerToken * p.maxModelLen + m.slidingPerToken * WindowTokens(m, p.maxModelLen, p.maxNumBatchedTokens),
        m.statePerSlot * p.maxNumSeqs)
  }

  function Available(m: Model, util: real): real {
    if m.dedicatedKv then m.budgetGib * GIB
    else (m.budgetGib * util - (m.weightGib + m.overheadGib)) * GIB
  }

  predicate OomRisk(m: Model, p: Params) {
    m.kvPerToken != 0 && m.budgetGib != 0.0 && Required(m, p) as real > Available(m, p.gpuUtil) * 0.9
  }

  // ----- The analysis' own formulas

  /** `sliding_window` and `max_num_batched_tokens` of 0 stand for None. */
  function KvBytesPerSeq(
    kvPerToken: nat, slidingPerToken: nat, state: nat, window: nat, len: int, batched: int): int
  {
    var tokens :=
      if window == 0 then len
      else Min(len, if batched != 0 then window - 1 + batched else window);
    kvPerToken * len + slidingPerToken * tokens + state
  }

  function KvBytes(budgetGib: real, dedicatedKv: bool, util: real, weightGib: real, overheadGib: real): real {
    if dedicatedKv then budgetGib * GIB
    else budgetGib * util * GIB - (weightGib + overheadGib) * GIB
  }

  /** `max(0, floor(budget / perSeq))` */
  function Capacity(budget: real, perSeq: int): int
    requires perSeq > 0
  {
    Max(0, (budget / perSeq as real).Floor)
  }

  /** The capacity is the greatest number of sequences that fit, and 0 when none does. */
  lemma CapacityIsGreatest(budget: real, perSeq: int, n: int)
    requires perSeq > 0 && n >= 0
    ensures n <= Capacity(budget, perSeq) <==> n == 0 || n as real * perSeq as real <= budget
  {
    var q, s := budget / perSeq as real, perSeq as real;
    assert q * s == budget;
    if n as real <= q {
      MultiplyMonotone(n as real, q, s);
      assert n <= q.Floor;
    } else {
      MultiplyMonotone(q, n as real, s);
    }
  }

  lemma MultiplyMonotone(a: real, b: real, c: real)
    requires a <= b && c >= 0.0
    ensures a * c <= b * c
    ensures a < b && c > 0.0 ==> a * c < b * c
  {
  }

  lemma ProductMonotone(k: nat, a: int, b: int)
    requires a <= b
    ensures k * a <= k * b
  {
  }

  // ----- Monotonicity of the prediction

  lemma RequiredMonotone(m: Model, p: Params, q: Params)
    requires p.maxNumSeqs <= q.maxNumSeqs && p.maxModelLen <= q.maxModelLen
    requires Batched(m, p.maxNumBatchedTokens) <= Batched(m, q.maxNumBatchedTokens)
    ensures Required(m, p) <= Required(m, q)
  {
    ProductMonotone(m.kvPerToken, p.maxModelLen, q.maxModelLen);
    ProductMonotone(m.statePerSlot, p.maxNumSeqs, q.maxNumSeqs);
    var v, w := WindowTokens(m, p.maxModelLen, p.maxNumBatchedTokens),
      WindowTokens(m, q.maxModelLen, q.maxNumBatchedTokens);
    assert v <= w;
    ProductMonotone(m.slidingPerToken, v, w);
  }

  /**
   * Rejection is upward closed in slots, context length and batched tokens in force, and downward closed in
   * utilization.
   */
  lemma RejectionIsClosed(m: Model, p: Params, q: Params)
    requires p.maxNumSeqs <= q.maxNumSeqs && p.maxModelLen <= q.maxModelLen && q.gpuUtil <= p.gpuUtil
    requires Batched(m, p.maxNumBatchedTokens) <= Batched(m, q.maxNumBatchedTokens)
    requires m.budgetGib >= 0.0 && OomRisk(m, p)
    ensures OomRisk(m, q)
  {
    RequiredMonotone(m, p, q);
    AvailableMonotone(m, q.gpuUtil, p.gpuUtil);
    hide Required, Available;
  }

  predicate RiskWith(m: Model, p: Params, batched: int) {
    OomRisk(m, p.(maxNumBatchedTokens := batched))
  }

  /**
   * In the batched-token parameter itself the prediction is monotone but for one case: 0 falls back to the lower end
   * of the search range, and may be rejected where a positive number below that end is admitted. The sampler
   * proposes no 0 while that end is positive.
   */
  lemma BatchedTokensPart(low: nat, a: nat, b: nat)
    requires a <= b
    ensures (forall m: Model, p: Params | m.batchedLow == low && m.budgetGib >= 0.0 && RiskWith(m, p, a) ::
               RiskWith(m, p, b)) <==>
            !(a == 0 && 0 < b < low)
  {
    if a == 0 && 0 < b < low {
      var m, p := ZeroBatchedTokensPart(low, b);
      assert RiskWith(m, p, a) && !RiskWith(m, p, b);
    } else {
      forall m: Model, p: Params | m.batchedLow == low && m.budgetGib >= 0.0 && RiskWith(m, p, a)
        ensures RiskWith(m, p, b)
      {
        RejectionIsClosed(m, p.(maxNumBatchedTokens := a), p.(maxNumBatchedTokens := b));
      }
    }
  }

  /** A budget for one sequence with `b` batched tokens, of which 0 count as `low`. */
  lemma ZeroBatchedTokensPart(low: nat, b: nat) returns (m: Model, p: Params)
    requires 0 < b < low
    ensures m.batchedLow == low && m.budgetGib >= 0.0 && RiskWith(m, p, 0) && !RiskWith(m, p, b)
  {
    var need := (low + b) as real;
    m := Model(1, 1, 1, 0, need / 0.9 / GIB, true, 0.0, 0.0, low);
    p := Params(1, 0.9, 0, low);
    assert m.budgetGib * GIB == need / 0.9 && need / 0.9 * 0.9 == need;
    assert need / 0.9 > 0.0 && m.budgetGib > 0.0;
    assert Required(m, p) == low + low;
    assert Required(m, p.(maxNumBatchedTokens := b)) == low + b;
  }

  lemma AvailableMonotone(m: Model, u: real, v: real)
    requires u <= v && m.budgetGib >= 0.0
    ensures Available(m, u) <= Available(m, v)
  {
    var reserved := m.weightGib + m.overheadGib;
    MultiplyMonotone(u, v, m.budgetGib);
    assert m.budgetGib * u == u * m.budgetGib && m.budgetGib * v == v * m.budgetGib;
    MultiplyMonotone(m.budgetGib * u - reserved, m.budgetGib * v - reserved, GIB);
  }

  // ----- The two formulas agree

  lemma AvailableIsKvBytes(m: Model, util: real)
    ensures Available(m, util) == KvBytes(m.budgetGib, m.dedicatedKv, util, m.weightGib, m.overheadGib)
  {
  }

  /** The attention cache of one sequence of the maximal length. */
  function KvNeed(m: Model, p: Params): int {
    m.kvPerToken * p.maxModelLen + m.slidingPerToken * WindowTokens(m, p.maxModelLen, p.maxNumBatchedTokens)
  }

  /** What the analysis charges one sequence of the maximal length, with `state` bytes of linear state. */
  function SequenceBytes(m: Model, p: Params, state: nat): int {
    KvBytesPerSeq(m.kvPerToken, m.slidingPerToken, state, m.window, p.maxModelLen, p.maxNumBatchedTokens)
  }

  /** The budget of the analysis. */
  function Budget(m: Model, p: Params): real {
    KvBytes(m.budgetGib, m.dedicatedKv, p.gpuUtil, m.weightGib, m.overheadGib)
  }

  /** The capacity is at least one sequence of the maximal length. */
  predicate HoldsOne(m: Model, p: Params, state: nat) {
    SequenceBytes(m, p, state) > 0 && Capacity(Budget(m, p), SequenceBytes(m, p, state)) >= 1
  }

  predicate Analysed(m: Model, p: Params) {
    m.kvPerToken > 0 && m.budgetGib > 0.0 && p.maxModelLen > 0 && p.maxNumBatchedTokens > 0
  }

  /** Both formulas charge one sequence the same attention cache; the analysis adds its state. */
  lemma RequiredIsOneSequence(m: Model, p: Params, state: nat)
    requires Analysed(m, p)
    ensures SequenceBytes(m, p, state) == KvNeed(m, p) + state && KvNeed(m, p) > 0
    ensures Required(m, p) == Max(KvNeed(m, p), m.statePerSlot * p.maxNumSeqs)
  {
    ProductMonotone(m.kvPerToken, 1, p.maxModelLen);
    ProductMonotone(m.slidingPerToken, 0, WindowTokens(m, p.maxModelLen, p.maxNumBatchedTokens));
  }

  /** Nothing is rejected while the cache size or the budget is unknown. */
  lemma {:induction false} RejectedExactly(m: Model, p: Params)
    ensures OomRisk(m, p) <==>
            && m.kvPerToken > 0 && m.budgetGib != 0.0
            && (|| KvNeed(m, p) as real > Budget(m, p) * 0.9
                || (m.statePerSlot * p.maxNumSeqs) as real > Budget(m, p) * 0.9)
  {
    AvailableIsKvBytes(m, p.gpuUtil);
    assert Required(m, p) == Max(KvNeed(m, p), m.statePerSlot * p.maxNumSeqs);
    hide Required, KvBytes, Available, KvNeed;
  }

  /** An unknown number of batched tokens counts as one: the window alone. */
  lemma UnknownBatchIsOne(kv: nat, sliding: nat, state: nat, window: nat, len: int)
    ensures KvBytesPerSeq(kv, sliding, state, window, len, 0) == KvBytesPerSeq(kv, sliding, state, window, len, 1)
  {
  }

  /**
   * A configuration is admitted exactly when nine tenths of the budget hold one sequence's attention cache, and as
   * well the state of all slots. It then has capacity for one whole sequence exactly when the budget holds cache and
   * state together, as it does whenever the state is at most a tenth of it, in particular without linear state.
   */
  lemma {:induction false} AdmittedHoldsOneSequence(m: Model, p: Params, state: nat)
    requires Analysed(m, p)
    ensures SequenceBytes(m, p, state) > 0
    ensures !OomRisk(m, p) <==>
            && KvNeed(m, p) as real <= Budget(m, p) * 0.9
            && (m.statePerSlot * p.maxNumSeqs) as real <= Budget(m, p) * 0.9
    ensures HoldsOne(m, p, state) <==> (KvNeed(m, p) + state) as real <= Budget(m, p)
    ensures !OomRisk(m, p) && state as real <= Budget(m, p) * 0.1 ==> HoldsOne(m, p, state)
  {
    RequiredIsOneSequence(m, p, state);
    AvailableIsKvBytes(m, p.gpuUtil);
    hide Required, KvBytes, Available, Capacity, KvNeed, SequenceBytes;
    CapacityIsGreatest(Budget(m, p), SequenceBytes(m, p, state), 1);
  }

  function WithLength(p: Params, len: int): Params {
    p.(maxModelLen := len)
  }

  /**
   * Let `p` be the longest context admitted. Then every admitted context length holds one whole sequence exactly
   * when this one does; it does if the state is at most a tenth of the budget, and it does not if the state exceeds
   * that by the cache of one more token.
   */
  lemma {:induction false} LinearStateAgreesExactly(m: Model, p: Params, state: nat)
    requires Analysed(m, p) && !OomRisk(m, p) && OomRisk(m, WithLength(p, p.maxModelLen + 1))
    ensures (forall len | len > 0 && !OomRisk(m, WithLength(p, len)) :: HoldsOne(m, WithLength(p, len), state)) <==>
            (KvNeed(m, p) + state) as real <= Budget(m, p)
    ensures state as real <= Budget(m, p) * 0.1 ==> (KvNeed(m, p) + state) as real <= Budget(m, p)
    ensures state as real >= Budget(m, p) * 0.1 + (m.kvPerToken + m.slidingPerToken) as real ==>
              (KvNeed(m, p) + state) as real > Budget(m, p)
  {
    var longer := WithLength(p, p.maxModelLen + 1);
    hide OomRisk, HoldsOne, SequenceBytes, KvNeed, Budget;
    AdmittedHoldsOneSequence(m, p, state);
    AdmittedHoldsOneSequence(m, longer, state);
    NeedOneMore(m, p);
    SameBudget(m, p, p.maxModelLen + 1);
    if (KvNeed(m, p) + state) as real <= Budget(m, p) {
      forall len | len > 0 && !OomRisk(m, WithLength(p, len)) ensures HoldsOne(m, WithLength(p, len), state) {
        ShorterHolds(m, p, state, len);
      }
    }
    assert WithLength(p, p.maxModelLen) == p;
  }

  lemma SameBudget(m: Model, p: Params, len: int)
    ensures Budget(m, WithLength(p, len)) == Budget(m, p)
  {
  }

  lemma {:induction false} ShorterHolds(m: Model, p: Params, state: nat, len: int)
    requires Analysed(m, p) && OomRisk(m, WithLength(p, p.maxModelLen + 1))
    requires len > 0 && !OomRisk(m, WithLength(p, len)) && (KvNeed(m, p) + state) as real <= Budget(m, p)
    ensures HoldsOne(m, WithLength(p, len), state)
  {
    var q, longer := WithLength(p, len), WithLength(p, p.maxModelLen + 1);
    hide OomRisk, HoldsOne, SequenceBytes, KvNeed, Budget;
    if len > p.maxModelLen { RejectionIsClosed(m, longer, q); }
    assert len <= p.maxModelLen;
    NeedMonotone(m, q, p);
    SameBudget(m, p, len);
    AdmittedHoldsOneSequence(m, q, state);
  }

  lemma NeedMonotone(m: Model, p: Params, q: Params)
    requires p.maxModelLen <= q.maxModelLen && p.maxNumBatchedTokens == q.maxNumBatchedTokens
    ensures KvNeed(m, p) <= KvNeed(m, q)
  {
    ProductMonotone(m.kvPerToken, p.maxModelLen, q.maxModelLen);
    ProductMonotone(m.slidingPerToken, WindowTokens(m, p.maxModelLen, p.maxNumBatchedTokens),
      WindowTokens(m, q.maxModelLen, q.maxNumBatchedTokens));
  }

  lemma NeedOneMore(m: Model, p: Params)
    ensures KvNeed(m, WithLength(p, p.maxModelLen + 1)) <= KvNeed(m, p) + m.kvPerToken + m.slidingPerToken
  {
    var w := WindowTokens(m, p.maxModelLen, p.maxNumBatchedTokens);
    var w' := WindowTokens(m, p.maxModelLen + 1, p.maxNumBatchedTokens);
    assert w' <= w + 1;
    ProductMonotone(m.slidingPerToken, w', w + 1);
    assert m.slidingPerToken * (w + 1) == m.slidingPerToken * w + m.slidingPerToken;
    assert m.kvPerToken * (p.maxModelLen + 1) == m.kvPerToken * p.maxModelLen + m.kvPerToken;
  }

  /** The slots of an admitted configuration bound its state: nine times the state in slots is enough. */
  lemma {:induction false} SlotsBoundState(m: Model, p: Params, state: nat)
    requires Analysed(m, p) && !OomRisk(m, p) && m.statePerSlot * p.maxNumSeqs >= 9 * state
    ensures HoldsOne(m, p, state)
  {
    AdmittedHoldsOneSequence(m, p, state);
    hide OomRisk, HoldsOne, SequenceBytes, KvNeed, Budget;
    assert (9 * state) as real <= Budget(m, p) * 0.9;
  }

  /** Where slots do not share blocks of state, every admitted configuration of nine slots holds one sequence. */
  lemma {:induction false} UnsharedSlotsAgree(
    m: Model, p: Params, full: nat, linear: nat, state: nat, openvino: bool)
    requires Analysed(m, p) && !OomRisk(m, p) && m.statePerSlot == BootStateBytesPerSeq(full, linear, state, openvino)
    requires (openvino || full == 0 || full >= linear) && p.maxNumSeqs >= 9
    ensures HoldsOne(m, p, state)
  {
    assert m.statePerSlot == state;
    ProductMonotone(state, 9, p.maxNumSeqs);
    SlotsBoundState(m, p, state);
  }

  /** Elsewhere the formulas part: the prediction takes the larger of two needs, the analysis their sum. */
  lemma LinearStateParts()
    ensures var m := Model(1, 0, 0, 1000, 1500.0 / GIB, true, 0.0, 0.0, 256);
            var perSeq := KvBytesPerSeq(1, 0, 1000, 0, 900, 256);
            !OomRisk(m, Params(1, 0.9, 256, 900)) && perSeq == 1900 &&
            Capacity(KvBytes(m.budgetGib, m.dedicatedKv, 0.9, m.weightGib, m.overheadGib), perSeq) == 0
  {
    var budget := 1500.0 / GIB * GIB;
    assert budget == 1500.0;
    CapacityIsGreatest(budget, 1900, 1);
    CapacityIsGreatest(budget, 1900, 0);
  }

  /**
   * A slot's state at boot is at most the state of a whole sequence, and all of it without shared blocks; blocks
   * shared by fewer full than linear layers cost a slot the full layers' share of it, rounded down.
   */
  function BootStateBytesPerSeq(full: nat, linear: nat, state: nat, openvino: bool): (r: nat)
    ensures r <= state
    ensures openvino || full == 0 || full >= linear ==> r == state
    ensures !openvino && 0 < full < linear ==> r * linear <= state * full < (r + 1) * linear
  {
    if linear == 0 || state == 0 || openvino then state
    else
      var group := if Min(full, linear) == 0 then linear else Min(full, linear);
      SharedState(state, group, linear);
      state * group / linear
  }

  lemma SharedState(state: nat, group: nat, linear: nat)
    requires 0 < group <= linear
    ensures state * group / linear <= state
    ensures group == linear ==> state * group / linear == state
  {
    ProductMonotone(state, group, linear);
    var q := state * group / linear;
    assert q * linear <= state * group;
    if q > state {
      ProductMonotone(linear, state + 1, q);
      assert false;
    }
    if group == linear {
      assert state * linear == state * group;
      if q < state { ProductMonotone(linear, q + 1, state); }
    }
  }

  // ----- The capacity table

  datatype Row = Row(contextLen: int, perSeq: int, maxSeqs: int)

  const CONTEXT_LENS: seq<int> := [1024, 2048, 4096, 8192, 16384, 32768, 65536, 131072, 262144]

  predicate Holds(n: nat, perSeq: int, budget: real) {
    n == 0 || n as real * perSeq as real <= budget
  }

  /** The row's count is the greatest that fits the budget. */
  ghost predicate GreatestFit(row: Row, budget: real) {
    row.perSeq > 0 && row.maxSeqs >= 0 && forall n: nat :: n <= row.maxSeqs <==> Holds(n, row.perSeq, budget)
  }

  datatype Shape = Shape(kv: nat, sliding: nat, state: nat, window: nat, batched: nat)

  function PerSeq(s: Shape, len: int): int {
    KvBytesPerSeq(s.kv, s.sliding, s.state, s.window, len, s.batched)
  }

  predicate IsRow(row: Row, s: Shape, ctx: int, budget: real) {
    row.contextLen == ctx && row.perSeq == PerSeq(s, ctx) && row.perSeq > 0 && row.maxSeqs ==
      Capacity(budget, row.perSeq)
  }

  lemma RowFits(row: Row, s: Shape, ctx: int, budget: real)
    requires IsRow(row, s, ctx, budget)
    ensures GreatestFit(row, budget)
  {
    forall n: nat ensures n <= row.maxSeqs <==> Holds(n, row.perSeq, budget) {
      CapacityIsGreatest(budget, row.perSeq, n);
    }
  }

  lemma RowsDecrease(r1: Row, r2: Row, s: Shape, budget: real)
    requires IsRow(r1, s, r1.contextLen, budget) && IsRow(r2, s, r2.contextLen, budget)
    requires 0 <= r1.contextLen <= r2.contextLen
    ensures r1.maxSeqs >= r2.maxSeqs
  {
    PerSeqMonotone(s.kv, s.sliding, s.state, s.window, r1.contextLen, r2.contextLen, s.batched);
    CapacityMonotone(budget, r1.perSeq, r2.perSeq);
  }

  lemma PerSeqMonotone(kv: nat, sliding: nat, state: nat, window: nat, a: int, b: int, batched: nat)
    requires 0 <= a <= b
    ensures 0 <= KvBytesPerSeq(kv, sliding, state, window, a, batched) <= KvBytesPerSeq(kv, sliding, state, window, b,
            batched)
  {
    var cap := if batched != 0 then window - 1 + batched else window;
    ProductMonotone(kv, a, b);
    ProductMonotone(kv, 0, a);
    if window == 0 {
      ProductMonotone(sliding, a, b);
      ProductMonotone(sliding, 0, a);
    } else {
      ProductMonotone(sliding, Min(a, cap), Min(b, cap));
      ProductMonotone(sliding, 0, Min(a, cap));
    }
  }

  lemma CapacityMonotone(budget: real, a: int, b: int)
    requires 0 < a <= b
    ensures Capacity(budget, a) >= Capacity(budget, b)
  {
    var n := Capacity(budget, b);
    CapacityIsGreatest(budget, b, n);
    CapacityIsGreatest(budget, a, n);
    MultiplyMonotone(a as real, b as real, n as real);
    assert n as real * a as real <= n as real * b as real;
  }

  /** Each row holds the greatest number of sequences that fit; longer contexts never hold more. */
  method CapacityTable(s: Shape, budget: real, maxContext: nat) returns (rows: seq<Row>)
    ensures |rows| <= |CONTEXT_LENS|
    ensures forall i | 0 <= i < |rows| ::
              IsRow(rows[i], s, CONTEXT_LENS[i], budget) && (maxContext == 0 || CONTEXT_LENS[i] <= maxContext)
    ensures forall i | 0 <= i < |rows| :: GreatestFit(rows[i], budget)
    ensures forall i, j | 0 <= i < j < |rows| :: rows[i].maxSeqs >= rows[j].maxSeqs
    ensures |rows| < |CONTEXT_LENS| ==>
              (maxContext != 0 && CONTEXT_LENS[|rows|] > maxContext) || PerSeq(s, CONTEXT_LENS[|rows|]) == 0
  {
    hide Capacity, KvBytesPerSeq, GreatestFit;
    rows := [];
    for i := 0 to |CONTEXT_LENS|
      invariant |rows| == i
      invariant forall j | 0 <= j < i ::
                  IsRow(rows[j], s, CONTEXT_LENS[j], budget) && (maxContext == 0 || CONTEXT_LENS[j] <= maxContext)
    {
      var ctx := CONTEXT_LENS[i];
      if maxContext != 0 && ctx > maxContext { break; }
      var perSeq := PerSeq(s, ctx);
      if perSeq == 0 { break; }
      PerSeqMonotone(s.kv, s.sliding, s.state, s.window, 0, ctx, s.batched);
      rows := rows + [Row(ctx, perSeq, Capacity(budget, perSeq))];
    }
    forall i | 0 <= i < |rows| ensures GreatestFit(rows[i], budget) {
      RowFits(rows[i], s, CONTEXT_LENS[i], budget);
    }
    forall i, j | 0 <= i < j < |rows| ensures rows[i].maxSeqs >= rows[j].maxSeqs {
      RowsDecrease(rows[i], rows[j], s, budget);
    }
  }

  // ----- The suggested search space

  datatype Space = Space(seqsMin: int, seqsMax: int)

  predicate LengthsGrow(rows: seq<Row>) {
    forall i, j | 0 <= i < j < |rows| :: rows[i].contextLen < rows[j].contextLen
  }

  /** The rows within the served length that hold a sequence, in the table's order. */
  function FittingRows(capacity: seq<Row>, served: nat): (r: seq<Row>)
    ensures forall row :: row in r <==>
              row in capacity && row.maxSeqs >= 1 && (served == 0 || row.contextLen <= served)
    ensures LengthsGrow(capacity) ==> LengthsGrow(r)
  {
    if capacity == [] then []
    else if capacity[0].maxSeqs >= 1 && (served == 0 || capacity[0].contextLen <= served)
    then [capacity[0]] + FittingRows(capacity[1..], served)
    else FittingRows(capacity[1..], served)
  }

  /** Row `i` decides: the last of 2048 tokens, else the first. */
  ghost predicate Decides(rows: seq<Row>, i: int) {
    && 0 <= i < |rows|
    && if rows[i].contextLen == 2048 then forall j | i < j < |rows| :: rows[j].contextLen != 2048
       else i == 0 && forall j | 0 <= j < |rows| :: rows[j].contextLen != 2048
  }

  /** The capacity at 2048 tokens (the last such row counts), else that of the shortest fitting context. */
  function TypicalCap(rows: seq<Row>): (r: int)
    requires rows != [] && forall row | row in rows :: row.maxSeqs >= 1
    ensures exists i :: Decides(rows, i) && rows[i].maxSeqs == r
  {
    var at := LastOfLen(rows, 2048);
    assert at.None? ==> Decides(rows, 0) by {
      assert forall j | 0 <= j < |rows| :: rows[j] in rows;
    }
    if at.Some? && at.value != 0 then at.value else rows[0].maxSeqs
  }

  function LastOfLen(rows: seq<Row>, len: int): (r: Option<int>)
    ensures r.Some? ==> exists i | 0 <= i < |rows| ::
              rows[i].contextLen == len && rows[i].maxSeqs == r.value &&
              forall j | i < j < |rows| :: rows[j].contextLen != len
    ensures r.None? <==> forall row | row in rows :: row.contextLen != len
  {
    if rows == [] then None
    else if rows[|rows| - 1].contextLen == len then Some(rows[|rows| - 1].maxSeqs)
    else LastOfLen(rows[..|rows| - 1], len)
  }

  /** No greater multiple of 32 would do for the upper end, nor for a quarter of it, unless that is below 32. */
  predicate Tight(s: Space, cap: int) {
    && (cap >= 64 && s.seqsMax < 1024 ==> s.seqsMax + 32 > cap)
    && (4 * s.seqsMin <= s.seqsMax || s.seqsMin == 32) && 4 * (s.seqsMin + 32) > s.seqsMax
  }

  /** Both ends are multiples of 32, ordered, within [32, 1024]; the upper end never exceeds a cap of 64 or more. */
  function AlignedRange(cap: int): (r: Space)
    ensures 32 <= r.seqsMin <= r.seqsMax <= 1024 && 64 <= r.seqsMax
    ensures r.seqsMin % 32 == 0 && r.seqsMax % 32 == 0
    ensures if cap >= 64 then r.seqsMax <= cap else r.seqsMax == 64
    ensures Tight(r, cap)
  {
    var hi := Max(64, Min(1024, cap / 32 * 32));
    Space(Max(32, hi / 4 / 32 * 32), hi)
  }

  function SuggestSearchSpace(capacity: seq<Row>, served: nat): (r: Option<Space>)
    ensures r.None? <==> forall i | 0 <= i < |capacity| ::
              capacity[i].maxSeqs < 1 || (served != 0 && capacity[i].contextLen > served)
    ensures r.Some? ==>
              && 32 <= r.value.seqsMin <= r.value.seqsMax <= 1024
              && r.value.seqsMin % 32 == 0 && r.value.seqsMax % 32 == 0
              && exists i ::
                   && Decides(FittingRows(capacity, served), i)
                   && var cap := FittingRows(capacity, served)[i].maxSeqs;
                      (if cap >= 64 then r.value.seqsMax <= cap else r.value.seqsMax == 64) && Tight(r.value, cap)
  {
    var rows := FittingRows(capacity, served);
    NothingFits(capacity, served);
    if rows == [] then None else Some(AlignedRange(TypicalCap(rows)))
  }

  lemma {:induction false} NothingFits(capacity: seq<Row>, served: nat)
    ensures FittingRows(capacity, served) == [] <==> forall i | 0 <= i < |capacity| ::
              capacity[i].maxSeqs < 1 || (served != 0 && capacity[i].contextLen > served)
    decreases |capacity|
  {
    if capacity != [] {
      NothingFits(capacity[1..], served);
      assert forall i | 0 < i < |capacity| :: capacity[i] == capacity[1..][i - 1];
    }
  }

  /** Clamping to a positive cap keeps the order and never exceeds the cap. */
  function ClampToCap(space: Space, cap: nat): (r: Space)
    ensures cap == 0 || space.seqsMax <= cap ==> r == space
    ensures cap > 0 ==> r.seqsMax <= cap && r.seqsMax <= space.seqsMax && r.seqsMax in {cap, space.seqsMax}
    ensures space.seqsMin <= space.seqsMax ==> r.seqsMin <= r.seqsMax
    ensures cap > 0 && space.seqsMin <= cap ==> r.seqsMin == space.seqsMin
  {
    if cap == 0 || space.seqsMax <= cap then space else Space(Min(space.seqsMin, cap), cap)
  }
}
