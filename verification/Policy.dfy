/** The tuner's policy record, its clamps, and the gateway overrides written from it. */
module Policy {
  const MIN_DRAFT_K := 2
  const MAX_DRAFT_K := 8
  const MIN_ACCEPT := 0.5
  const MAX_ACCEPT := 0.95
  const MIN_GOVERNOR := 256
  const MAX_GOVERNOR := 8192

  datatype PolicyState = PolicyState(draftK: int, confidence: real, thinkingCap: int, quant: string)

  /** What the gateway reads at its next start. */
  datatype Overrides = Overrides(draftLen: int, acceptThreshold: real, baseBudget: int)

  function Within(lo: int, hi: int, x: int): int {
    if x < lo then lo else if x > hi then hi else x
  }

  function WithinReal(lo: real, hi: real, x: real): real {
    if x < lo then lo else if x > hi then hi else x
  }

  function Clamp(p: PolicyState): PolicyState {
    PolicyState(Within(MIN_DRAFT_K, MAX_DRAFT_K, p.draftK), WithinReal(MIN_ACCEPT, MAX_ACCEPT, p.confidence),
                Within(MIN_GOVERNOR, MAX_GOVERNOR, p.thinkingCap), p.quant)
  }

  predicate InBox(p: PolicyState) {
    && MIN_DRAFT_K <= p.draftK <= MAX_DRAFT_K
    && MIN_ACCEPT <= p.confidence <= MAX_ACCEPT
    && MIN_GOVERNOR <= p.thinkingCap <= MAX_GOVERNOR
  }

  function OverridesOf(p: PolicyState): Overrides {
    var c := Clamp(p);
    Overrides(c.draftK, c.confidence, c.thinkingCap)
  }

  ghost function Distance(x: real, y: real): real { if x < y then y - x else x - y }

  /** No number of the range is closer to `x` than `q`, which lies in it. */
  ghost predicate IsNearest(q: real, x: real, lo: real, hi: real) {
    lo <= q <= hi && forall y :: lo <= y <= hi ==> Distance(q, x) <= Distance(y, x)
  }

  /** The draft length is pushed into two to eight, the confidence into 0.5 to 0.95, the cap into 256 to 8192. */
  lemma OverridesExactly(p: PolicyState)
    ensures var o := OverridesOf(p);
            && IsNearest(o.draftLen as real, p.draftK as real, 2.0, 8.0)
            && IsNearest(o.acceptThreshold, p.confidence, 0.5, 0.95)
            && IsNearest(o.baseBudget as real, p.thinkingCap as real, 256.0, 8192.0)
    ensures var c := Clamp(p); Overrides(c.draftK, c.confidence, c.thinkingCap) == OverridesOf(p) && c.quant == p.quant
    ensures InBox(p) <==> Clamp(p) == p
  {
  }
}
