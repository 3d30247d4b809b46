/** Sizing the context window and picking a local model (internal/localmodel/catalog.go:36-169). */
module ContextWindow {

  datatype ModelSpec = ModelSpec(
    name: string, minVRAM: int, minRAM: int, baseVRAM: int, kvPerKToken: int)

  const CATALOG := [
    ModelSpec("qwen2.5:3b", 0, 6000, 2200, 60),
    ModelSpec("qwen2.5:7b", 6000, 12000, 5100, 140),
    ModelSpec("qwen2.5:14b", 11000, 20000, 9500, 280),
    ModelSpec("qwen2.5:32b", 22000, 40000, 20000, 640)
  ]

  const CONTEXT_SIZE_STEPS := [4096, 8192, 16384, 32768, 65536, 131072]

  const MIN_RECOMMENDED_NUM_CTX := 4096

  /** Integer division as Go does it, towards zero. */
  function Truncated(a: int, b: int): int
    requires b > 0
  {
    if a >= 0 then a / b else -(-a / b)
  }

  /** Nine tenths of the memory of a graphics card. */
  function UsableVRAM(vram: int): int {
    Truncated(vram * 9, 10)
  }

  /** A tenth is held back, rounded up. */
  lemma UsableVRAMIs(vram: int)
    requires vram >= 0
    ensures 10 * UsableVRAM(vram) <= 9 * vram < 10 * (UsableVRAM(vram) + 1)
  {
  }

  lemma UsableVRAMGrows(v: int, w: int)
    requires v <= w
    ensures UsableVRAM(v) <= UsableVRAM(w)
  {
  }

  // ---------------------------------------------------------------- the window

  /** The weights and the cache of `tokens` tokens fit into the usable memory. */
  predicate Fits(spec: ModelSpec, vram: int, tokens: int) {
    spec.kvPerKToken > 0 && spec.baseVRAM + spec.kvPerKToken * (tokens / 1024) <= UsableVRAM(vram)
  }

  /** In whole units: weights and cache, ten times over, stay within nine times the memory. */
  lemma FitsIs(spec: ModelSpec, vram: int, k: nat)
    requires vram >= 0
    ensures Fits(spec, vram, 1024 * k) <==>
      spec.kvPerKToken > 0 && 10 * (spec.baseVRAM + spec.kvPerKToken * k) <= 9 * vram
  {
    assert 1024 * k / 1024 == k;
    var x := spec.baseVRAM + spec.kvPerKToken * k;
    UsableVRAMIs(vram);
    hide UsableVRAM;
    assert x <= UsableVRAM(vram) <==> 10 * x <= 9 * vram;
  }

  /** `n` is listed, and the listed sizes above the floor that fit are exactly those up to `n`. */
  ghost predicate IsWindow(spec: ModelSpec, vram: int, n: int) {
    n in CONTEXT_SIZE_STEPS &&
    forall step | step in CONTEXT_SIZE_STEPS && step > MIN_RECOMMENDED_NUM_CTX :: Fits(spec, vram, step) <==> step <= n
  }

  /** Dividing the headroom by the cost of 1024 tokens decides what fits. */
  lemma StepFits(headroom: int, kv: int, step: int)
    requires headroom > 0 && kv > 0 && step >= 0 && step % 1024 == 0
    ensures step <= headroom / kv * 1024 <==> kv * (step / 1024) <= headroom
  {
    var k, q := step / 1024, headroom / kv;
    assert step == 1024 * k && headroom == kv * q + headroom % kv;
    if k <= q {
      Times(kv, k, q);
    } else {
      Times(kv, q + 1, k);
    }
  }

  lemma Times(c: int, a: int, b: int)
    requires c > 0 && a <= b
    ensures c * a <= c * b && c * (a + 1) == c * a + c
  {
  }

  method RecommendNumCtx(spec: ModelSpec, availableVRAM: int) returns (best: int)
    ensures IsWindow(spec, availableVRAM, best)
  {
    var usable := UsableVRAM(availableVRAM);
    var headroom := usable - spec.baseVRAM;
    if headroom <= 0 || spec.kvPerKToken <= 0 {
      best := MIN_RECOMMENDED_NUM_CTX;
      assert best == CONTEXT_SIZE_STEPS[0];
      forall step | step in CONTEXT_SIZE_STEPS && step > MIN_RECOMMENDED_NUM_CTX
        ensures !Fits(spec, availableVRAM, step)
      {
        if spec.kvPerKToken > 0 {
          assert spec.kvPerKToken * (step / 1024) > 0;
        }
      }
      return;
    }
    var maxKTokens := headroom / spec.kvPerKToken;
    var maxTokens := maxKTokens * 1024;
    best := MIN_RECOMMENDED_NUM_CTX;
    assert best == CONTEXT_SIZE_STEPS[0];
    for i := 0 to |CONTEXT_SIZE_STEPS|
      invariant best in CONTEXT_SIZE_STEPS
      invariant forall j | 0 <= j < i && CONTEXT_SIZE_STEPS[j] > MIN_RECOMMENDED_NUM_CTX ::
          CONTEXT_SIZE_STEPS[j] <= maxTokens <==> CONTEXT_SIZE_STEPS[j] <= best
      invariant forall j | i <= j < |CONTEXT_SIZE_STEPS| && CONTEXT_SIZE_STEPS[j] > MIN_RECOMMENDED_NUM_CTX ::
          best < CONTEXT_SIZE_STEPS[j]
    {
      if CONTEXT_SIZE_STEPS[i] <= maxTokens {
        best := CONTEXT_SIZE_STEPS[i];
      }
    }
    forall step | step in CONTEXT_SIZE_STEPS ensures Fits(spec, availableVRAM, step) <==> step <= maxTokens {
      StepFits(headroom, spec.kvPerKToken, step);
    }
  }

  /** The window is never below the floor; above it, it fits, and it is the largest listed size that does. */
  lemma WindowIsLargestFit(spec: ModelSpec, vram: int, n: int)
    requires IsWindow(spec, vram, n)
    ensures n >= MIN_RECOMMENDED_NUM_CTX
    ensures n > MIN_RECOMMENDED_NUM_CTX ==> Fits(spec, vram, n)
    ensures forall step | step in CONTEXT_SIZE_STEPS && Fits(spec, vram, step) :: step <= n
  {
  }

  /** What fits for a spec fits for a cheaper one with more memory. */
  lemma FitsMore(spec: ModelSpec, cheaper: ModelSpec, v: int, w: int, tokens: int)
    requires v <= w && cheaper.baseVRAM <= spec.baseVRAM && 0 < cheaper.kvPerKToken <= spec.kvPerKToken
    requires tokens >= 0 && Fits(spec, v, tokens)
    ensures Fits(cheaper, w, tokens)
  {
    UsableVRAMGrows(v, w);
    assert cheaper.kvPerKToken * (tokens / 1024) <= spec.kvPerKToken * (tokens / 1024);
  }

  /** More memory, lighter weights and a cheaper cache never shrink the window - unless the cheaper cache is recorded as
      costing nothing, which the code answers with the floor. */
  lemma WindowGrowsIff(spec: ModelSpec, cheaper: ModelSpec, v: int, w: int, n: int, m: int)
    requires v <= w && cheaper.baseVRAM <= spec.baseVRAM && cheaper.kvPerKToken <= spec.kvPerKToken
    requires IsWindow(spec, v, n) && IsWindow(cheaper, w, m)
    ensures n <= m <==> cheaper.kvPerKToken > 0 || !Fits(spec, v, 8192)
  {
    assert CONTEXT_SIZE_STEPS[1] == 8192;
    WindowIsLargestFit(spec, v, n);
    WindowIsLargestFit(cheaper, w, m);
    if cheaper.kvPerKToken > 0 && n > MIN_RECOMMENDED_NUM_CTX {
      FitsMore(spec, cheaper, v, w, n);
    }
  }

  /** A cache cost of one gets the largest window out of four gigabytes, a cost of zero the floor. */
  lemma FreeCacheGetsTheFloor()
    ensures IsWindow(ModelSpec("paid", 0, 0, 0, 1), 4000, 131072)
    ensures IsWindow(ModelSpec("free", 0, 0, 0, 0), 4000, 4096)
  {
    assert CONTEXT_SIZE_STEPS[0] == 4096 && CONTEXT_SIZE_STEPS[5] == 131072;
  }

  /** The windows of the catalog's models on cards of 8, 8, 16 and 24 GB. */
  lemma CatalogWindows(a: int, b: int, c: int, d: int)
    requires IsWindow(CATALOG[0], 8192, a) && IsWindow(CATALOG[1], 8192, b)
    requires IsWindow(CATALOG[2], 16384, c) && IsWindow(CATALOG[3], 24576, d)
    ensures a == 65536 && b == 16384 && c == 16384 && d == 4096
  {
    assert CONTEXT_SIZE_STEPS == [4096, 8192, 16384, 32768, 65536, 131072];
    assert 8192 in CONTEXT_SIZE_STEPS && 16384 in CONTEXT_SIZE_STEPS && 32768 in CONTEXT_SIZE_STEPS;
    assert 65536 in CONTEXT_SIZE_STEPS && 131072 in CONTEXT_SIZE_STEPS;
    assert Fits(CATALOG[0], 8192, 65536) && !Fits(CATALOG[0], 8192, 131072);
    assert Fits(CATALOG[1], 8192, 16384) && !Fits(CATALOG[1], 8192, 32768);
    assert Fits(CATALOG[2], 16384, 16384) && !Fits(CATALOG[2], 16384, 32768);
    assert !Fits(CATALOG[3], 24576, 8192);
    hide Fits;
  }

  // ---------------------------------------------------------------- the model

  /** `best` is the last entry of the catalog whose requirement the budget meets, -1 if there is none. */
  ghost predicate IsBestFit(budget: int, requirement: ModelSpec -> int, best: int) {
    -1 <= best < |CATALOG| && (best >= 0 ==> requirement(CATALOG[best]) <= budget) &&
    forall i | best < i < |CATALOG| :: requirement(CATALOG[i]) > budget
  }

  /** The requirement rises along the catalog. */
  ghost predicate Ascends(requirement: ModelSpec -> int) {
    forall i, j | 0 <= i < j < |CATALOG| :: requirement(CATALOG[i]) < requirement(CATALOG[j])
  }

  const VRAM_COLUMN := (m: ModelSpec) => m.minVRAM
  const RAM_COLUMN := (m: ModelSpec) => m.minRAM

  lemma ColumnsAscend()
    ensures Ascends(VRAM_COLUMN) && Ascends(RAM_COLUMN)
  {
  }

  method PickBestFit(budget: int, requirement: ModelSpec -> int) returns (best: int)
    ensures IsBestFit(budget, requirement, best)
  {
    best := -1;
    for i := 0 to |CATALOG|
      invariant -1 <= best < i
      invariant best >= 0 ==> requirement(CATALOG[best]) <= budget
      invariant forall j | best < j < i :: requirement(CATALOG[j]) > budget
    {
      if requirement(CATALOG[i]) <= budget {
        best := i;
      }
    }
  }

  /** Where the requirement rises along the catalog, the models that fit are exactly those up to the one picked, so the
      pick is the most demanding model that fits. */
  lemma BestFitIsMaximal(budget: int, requirement: ModelSpec -> int, best: int, i: nat)
    requires IsBestFit(budget, requirement, best) && Ascends(requirement) && i < |CATALOG|
    ensures requirement(CATALOG[i]) <= budget <==> i <= best
    ensures best >= 0 && requirement(CATALOG[i]) > requirement(CATALOG[best]) ==> requirement(CATALOG[i]) > budget
  {
    if i < best {
      assert requirement(CATALOG[i]) < requirement(CATALOG[best]);
    }
  }

  datatype Hardware = Hardware(vram: int, ram: int)

  /** Seven tenths of the system's memory, in floating point: up to one below the exact value, never shrinking. */
  ghost predicate LawfulShare(share: int -> int) {
    (forall x :: Truncated(x * 7, 10) - 1 <= share(x) <= Truncated(x * 7, 10) + 1) &&
    forall x, y | x <= y :: share(x) <= share(y)
  }

  /** The pick is by video memory wherever there is any: the smallest model asks for none, so nothing falls back. */
  ghost predicate IsPick(hw: Hardware, share: int -> int, best: int) {
    if hw.vram > 0 then IsBestFit(UsableVRAM(hw.vram), VRAM_COLUMN, best)
    else IsBestFit(share(hw.ram), RAM_COLUMN, best)
  }

  method PickModel(hw: Hardware, share: int -> int) returns (best: int)
    ensures IsPick(hw, share, best)
    ensures best < 0 <==> hw.vram <= 0 && share(hw.ram) < 6000
  {
    if hw.vram > 0 {
      best := PickBestFit(UsableVRAM(hw.vram), VRAM_COLUMN);
      assert VRAM_COLUMN(CATALOG[0]) == 0;
      if best >= 0 {
        return;
      }
    }
    best := PickBestFit(share(hw.ram), RAM_COLUMN);
    ColumnsAscend();
    BestFitIsMaximal(share(hw.ram), RAM_COLUMN, best, 0);
  }

  /** The thresholds: with nine tenths of 6000, 11000 and 22000 MB of video memory the next model is picked, without a
      card with 12000, 20000 and 40000 MB of usable system memory, and with less than 6000 MB none. */
  lemma PickIs(hw: Hardware, share: int -> int, best: int)
    requires IsPick(hw, share, best)
    ensures hw.vram > 0 ==> (best ==
      if 9 * hw.vram >= 220000 then 3 else if 9 * hw.vram >= 110000 then 2 else if 9 * hw.vram >= 60000 then 1 else 0)
    ensures hw.vram <= 0 ==> (best ==
      if share(hw.ram) >= 40000 then 3 else if share(hw.ram) >= 20000 then 2
      else if share(hw.ram) >= 12000 then 1 else if share(hw.ram) >= 6000 then 0 else -1)
  {
    ColumnsAscend();
    assert |CATALOG| == 4;
    assert VRAM_COLUMN(CATALOG[0]) == 0 && VRAM_COLUMN(CATALOG[1]) == 6000;
    assert VRAM_COLUMN(CATALOG[2]) == 11000 && VRAM_COLUMN(CATALOG[3]) == 22000;
    assert RAM_COLUMN(CATALOG[0]) == 6000 && RAM_COLUMN(CATALOG[1]) == 12000;
    assert RAM_COLUMN(CATALOG[2]) == 20000 && RAM_COLUMN(CATALOG[3]) == 40000;
    var budget, column := if hw.vram > 0 then UsableVRAM(hw.vram) else share(hw.ram),
                          if hw.vram > 0 then VRAM_COLUMN else RAM_COLUMN;
    forall i: nat | i < 4 ensures column(CATALOG[i]) <= budget <==> i <= best {
      BestFitIsMaximal(budget, column, best, i);
    }
    if hw.vram > 0 {
      UsableVRAMIs(hw.vram);
    }
  }

  /** A bigger machine of the same kind never gets a smaller model. */
  lemma PickGrows(hw: Hardware, bigger: Hardware, share: int -> int, p: int, q: int)
    requires LawfulShare(share) && hw.vram <= bigger.vram && hw.ram <= bigger.ram
    requires hw.vram > 0 <==> bigger.vram > 0
    requires IsPick(hw, share, p) && IsPick(bigger, share, q)
    ensures p <= q
  {
    UsableVRAMGrows(hw.vram, bigger.vram);
  }

  /** Adding a graphics card lowers the pick exactly when system memory alone carried a model the card cannot. */
  lemma CardLowersIff(ram: int, vram: int, share: int -> int, without: int, with: int)
    requires vram > 0
    requires IsPick(Hardware(0, ram), share, without) && IsPick(Hardware(vram, ram), share, with)
    ensures with < without <==>
      exists i :: 0 <= i < |CATALOG| && CATALOG[i].minRAM <= share(ram) && CATALOG[i].minVRAM > UsableVRAM(vram)
  {
    ColumnsAscend();
    forall i: nat | i < |CATALOG|
      ensures CATALOG[i].minRAM <= share(ram) <==> i <= without
      ensures CATALOG[i].minVRAM <= UsableVRAM(vram) <==> i <= with
    {
      BestFitIsMaximal(share(ram), RAM_COLUMN, without, i);
      BestFitIsMaximal(UsableVRAM(vram), VRAM_COLUMN, with, i);
    }
  }

  /** One megabyte of video memory takes a 64 GB machine from the largest model to the smallest. */
  lemma TinyCardGetsTheSmallest(share: int -> int, without: int, with: int)
    requires LawfulShare(share)
    requires IsPick(Hardware(0, 65536), share, without) && IsPick(Hardware(1, 65536), share, with)
    ensures without == 3 && with == 0
  {
    assert share(65536) >= Truncated(65536 * 7, 10) - 1;
    assert RAM_COLUMN(CATALOG[3]) == 40000;
    assert UsableVRAM(1) == 0 && VRAM_COLUMN(CATALOG[0]) == 0;
    assert VRAM_COLUMN(CATALOG[1]) == 6000 && VRAM_COLUMN(CATALOG[2]) == 11000 && VRAM_COLUMN(CATALOG[3]) == 22000;
  }
}
