/** What the two cloud detectors (censor/aliyun.py, censor/tencent.py) share: `_split_text`
    cuts an over-long text into fixed-size chunks, each chunk is checked on its own,
    and `detect_text` combines the chunk verdicts by maximum risk and union of reasons. */
module Chunking {
  import opened CensorTypes

  /** The chunks of `s`: consecutive pieces of `size` characters, the last one possibly
      shorter, and none at all for the empty string. */
  function Chunks(s: string, size: nat): seq<string>
    requires size > 0
    decreases |s|
  {
    if s == [] then []
    else if |s| <= size then [s]
    else [s[..size]] + Chunks(s[size..], size)
  }

  /** `"".join(chunks)` */
  function Concat(chunks: seq<string>): string {
    if chunks == [] then [] else chunks[0] + Concat(chunks[1..])
  }

  /** The chunks concatenate back to the input; each is non-empty and at most `size`
      long; all but the last are exactly `size` long; the empty text has no chunk and
      a text of at most `size` characters is its own single chunk. */
  lemma {:induction false} ChunksPartition(s: string, size: nat)
    requires size > 0
    ensures Concat(Chunks(s, size)) == s
    ensures forall i :: 0 <= i < |Chunks(s, size)| ==> 0 < |Chunks(s, size)[i]| <= size
    ensures forall i :: 0 <= i < |Chunks(s, size)| - 1 ==> |Chunks(s, size)[i]| == size
    ensures Chunks(s, size) == [] <==> s == []
    ensures 0 < |s| <= size ==> Chunks(s, size) == [s]
    decreases |s|
  {
    if |s| > size {
      var rest := Chunks(s[size..], size);
      ChunksPartition(s[size..], size);
      assert Chunks(s, size) == [s[..size]] + rest;
      assert ([s[..size]] + rest)[1..] == rest;
      assert s[..size] + s[size..] == s;
    } else if s != [] {
      assert Chunks(s, size)[1..] == [];
    }
  }

  /** Chunk number `k` is the slice `s[k*size : (k+1)*size]`, as Python's
      `range(0, len(s), size)` loop takes it, and such a chunk exists exactly when
      `k*size < len(s)`. */
  lemma {:induction false} ChunkAt(s: string, size: nat, k: nat)
    requires size > 0
    ensures k < |Chunks(s, size)| <==> k * size < |s|
    ensures k < |Chunks(s, size)| ==>
      var hi := if (k + 1) * size <= |s| then (k + 1) * size else |s|;
      Chunks(s, size)[k] == s[k * size..hi]
    decreases |s|
  {
    if |s| > size && k > 0 {
      ChunkAt(s[size..], size, k - 1);
      assert (k - 1) * size + size == k * size;
      assert k * size + size == (k + 1) * size;
    } else if k > 0 {
      assert k * size >= size;
    }
  }

  /** `_split_text`: the append loop over `range(0, len(content), size)`. */
  method SplitText(content: string, size: nat) returns (chunks: seq<string>)
    requires size > 0
    ensures chunks == Chunks(content, size)
  {
    if content == [] {
      return [];
    }
    chunks := [];
    var i := 0;
    while i < |content|
      invariant 0 <= i
      invariant i < |content| ==> chunks + Chunks(content[i..], size) == Chunks(content, size)
      invariant i >= |content| ==> chunks == Chunks(content, size)
      decreases |content| - i
    {
      var hi := if i + size <= |content| then i + size else |content|;
      var rest := content[i..];
      if |rest| > size {
        assert Chunks(rest, size) == [rest[..size]] + Chunks(rest[size..], size);
        assert rest[size..] == content[i + size..];
        assert rest[..size] == content[i..hi];
        assert chunks + Chunks(rest, size) == (chunks + [content[i..hi]]) + Chunks(content[i + size..], size);
      } else {
        assert Chunks(rest, size) == [rest];
        assert rest == content[i..hi];
      }
      chunks := chunks + [content[i..hi]];
      i := i + size;
    }
  }

  /** The reference aggregation: the largest risk by `.value`, starting from `Pass`, and
      the union of all reasons, folded left to right. */
  function Aggregate(results: seq<Verdict>): Verdict
  {
    if results == [] then Verdict(Pass, {})
    else
      var acc := Aggregate(results[..|results| - 1]);
      var last := results[|results| - 1];
      Verdict(MaxRisk(acc.risk, last.risk), acc.reasons + last.reasons)
  }

  /** The aggregate risk is an upper bound of `Pass` and of every chunk risk and is one
      of them; a reason is in the aggregate exactly when some chunk gave it. */
  lemma {:induction false} AggregateIsMaxAndUnion(results: seq<Verdict>)
    ensures var v := Aggregate(results);
      && v.risk.Value() >= Pass.Value()
      && (forall i :: 0 <= i < |results| ==> v.risk.Value() >= results[i].risk.Value())
      && (v.risk == Pass || exists i :: 0 <= i < |results| && v.risk == results[i].risk)
      && (forall r :: r in v.reasons <==> exists i :: 0 <= i < |results| && r in results[i].reasons)
  {
    if results != [] {
      var init := results[..|results| - 1];
      AggregateIsMaxAndUnion(init);
      var n := |results| - 1;
      forall i | 0 <= i < n ensures results[i] == init[i] { }
      var v := Aggregate(results);
      var acc := Aggregate(init);
      if v.risk != Pass && v.risk != results[n].risk {
        assert v.risk == acc.risk;
        var j :| 0 <= j < |init| && acc.risk == init[j].risk;
        assert v.risk == results[j].risk;
      }
      forall r | r in v.reasons
        ensures exists i :: 0 <= i < |results| && r in results[i].reasons
      {
        if r !in results[n].reasons {
          var j :| 0 <= j < |init| && r in init[j].reasons;
          assert r in results[j].reasons;
        }
      }
    }
  }

  /** Aggregation does not depend on the order of the chunk verdicts. */
  lemma AggregateOrderIndependent(a: seq<Verdict>, b: seq<Verdict>)
    requires multiset(a) == multiset(b)
    ensures Aggregate(a) == Aggregate(b)
  {
    AggregateIsMaxAndUnion(a);
    AggregateIsMaxAndUnion(b);
    var va, vb := Aggregate(a), Aggregate(b);
    forall i | 0 <= i < |a| ensures a[i] in b {
      assert a[i] in multiset(b);
    }
    forall i | 0 <= i < |b| ensures b[i] in a {
      assert b[i] in multiset(a);
    }
    assert va.risk.Value() <= vb.risk.Value();
    assert vb.risk.Value() <= va.risk.Value();
    RiskValueOrder(va.risk, vb.risk);
    forall r | r in va.reasons ensures r in vb.reasons {
      var i :| 0 <= i < |a| && r in a[i].reasons;
      var j :| 0 <= j < |b| && b[j] == a[i];
    }
    forall r | r in vb.reasons ensures r in va.reasons {
      var i :| 0 <= i < |b| && r in b[i].reasons;
      var j :| 0 <= j < |a| && a[j] == b[i];
    }
  }

  /** The accumulator loop of `detect_text`. */
  method AggregateLoop(results: seq<Verdict>) returns (v: Verdict)
    ensures v == Aggregate(results)
  {
    var highest := Pass;
    var words: set<string> := {};
    for i := 0 to |results|
      invariant Verdict(highest, words) == Aggregate(results[..i])
    {
      assert results[..i + 1][..i] == results[..i];
      if results[i].risk.Value() > highest.Value() {
        highest := results[i].risk;
      }
      words := words + results[i].reasons;
    }
    assert results[..|results|] == results;
    v := Verdict(highest, words);
  }

  const DetectFailurePrefix := "内容审核过程中发生异常: "

  /** `raise CensorError(f"内容审核过程中发生异常: {e!s}")` around the whole of `detect_text`. */
  function WrapDetectFailure(e: Fault): (w: Fault)
    ensures w.kind == Censor
  {
    CensorError(DetectFailurePrefix + e.message)
  }

  /** The outcome of each chunk check; `check(i, c)` is what checking chunk number `i`,
      with text `c`, gives after its own retries. */
  function ChunkOutcomes(chunks: seq<string>, check: (nat, string) -> Result<Verdict>): (r: seq<Result<Verdict>>)
    ensures |r| == |chunks|
    ensures forall i :: 0 <= i < |chunks| ==> r[i] == check(i, chunks[i])
  {
    seq(|chunks|, i requires 0 <= i < |chunks| => check(i, chunks[i]))
  }

  /** `asyncio.gather` without `return_exceptions`: the values when every chunk succeeded,
      or one chunk's error (here: the first failing chunk in list order). */
  function Gather(outs: seq<Result<Verdict>>): (r: Result<seq<Verdict>>)
    ensures r.Ok? <==> forall i :: 0 <= i < |outs| ==> outs[i].Ok?
    ensures r.Ok? ==> |r.value| == |outs| && forall i :: 0 <= i < |outs| ==> outs[i] == Ok(r.value[i])
    ensures r.Err? ==> exists i :: 0 <= i < |outs| && outs[i] == Err(r.fault)
  {
    if outs == [] then Ok([])
    else match outs[0]
      case Err(e) => Err(e)
      case Ok(v) =>
        match Gather(outs[1..])
        case Err(e) => Err(e)
        case Ok(vs) => Ok([v] + vs)
  }

  /** `detect_text` of a cloud detector whose per-request limit is `limit` characters. */
  function ChunkedVerdict(text: string, limit: nat, check: (nat, string) -> Result<Verdict>): Result<Verdict>
    requires limit > 0
  {
    if text == [] then Ok(Verdict(Pass, {}))
    else if |text| <= limit then
      match check(0, text)
      case Ok(v) => Ok(v)
      case Err(e) => Err(WrapDetectFailure(e))
    else
      match Gather(ChunkOutcomes(Chunks(text, limit), check))
      case Ok(vs) => Ok(Aggregate(vs))
      case Err(e) => Err(WrapDetectFailure(e))
  }

  /** `detect_text`'s body: short-circuits, the split, the concurrent chunk checks, and
      the accumulator loop. */
  method DetectChunked(text: string, limit: nat, check: (nat, string) -> Result<Verdict>) returns (r: Result<Verdict>)
    requires limit > 0
    ensures r == ChunkedVerdict(text, limit, check)
  {
    if text == [] {
      return Ok(Verdict(Pass, {}));
    }
    if |text| <= limit {
      match check(0, text)
      case Ok(v) => return Ok(v);
      case Err(e) => return Err(WrapDetectFailure(e));
    }
    var chunks := SplitText(text, limit);
    match Gather(ChunkOutcomes(chunks, check))
    case Err(e) =>
      r := Err(WrapDetectFailure(e));
    case Ok(vs) =>
      var v := AggregateLoop(vs);
      r := Ok(v);
  }

  /** Empty text is `(Pass, ∅)` and no chunk is ever checked: the outcome is the same
      whatever the checks would answer. */
  lemma EmptyTextPasses(limit: nat, check1: (nat, string) -> Result<Verdict>, check2: (nat, string) -> Result<Verdict>)
    requires limit > 0
    ensures ChunkedVerdict("", limit, check1) == ChunkedVerdict("", limit, check2) == Ok(Verdict(Pass, {}))
  {
  }

  /** A text within the limit is checked by exactly one call, on the whole text; as long
      as that call does not answer `Fallback`, the direct path agrees with what
      splitting and aggregating would give. */
  lemma ShortTextIsOneChunk(text: string, limit: nat, check: (nat, string) -> Result<Verdict>)
    requires limit > 0 && 0 < |text| <= limit
    requires check(0, text).Ok? ==> check(0, text).value.risk != Fallback
    ensures Chunks(text, limit) == [text]
    ensures ChunkedVerdict(text, limit, check)
         == match Gather(ChunkOutcomes([text], check))
            case Ok(vs) => Ok(Aggregate(vs))
            case Err(e) => Err(WrapDetectFailure(e))
  {
    ChunksPartition(text, limit);
    var outs := ChunkOutcomes([text], check);
    assert outs == [check(0, text)];
    assert outs[1..] == [];
    if check(0, text).Ok? {
      var v := check(0, text).value;
      assert Gather(outs) == Ok([v] + []);
      assert [v][..0] == [];
      assert Aggregate([v]) == Verdict(MaxRisk(Pass, v.risk), {} + v.reasons);
      assert {} + v.reasons == v.reasons;
    }
  }

  /** For a text over the limit, the verdict is `Ok` only when every chunk check
      succeeded, and is then at least `Pass` and every chunk risk, with a reason exactly
      when some chunk gave it; otherwise it is the error of a failing chunk, wrapped. */
  lemma LongTextAggregates(text: string, limit: nat, check: (nat, string) -> Result<Verdict>)
    requires limit > 0 && |text| > limit
    ensures ChunkedVerdict(text, limit, check).Ok? ==>
      forall i :: 0 <= i < |Chunks(text, limit)| ==> check(i, Chunks(text, limit)[i]).Ok?
    ensures ChunkedVerdict(text, limit, check).Ok? ==>
      && ChunkedVerdict(text, limit, check).value.risk.Value() >= Pass.Value()
      && forall i :: 0 <= i < |Chunks(text, limit)| ==>
           ChunkedVerdict(text, limit, check).value.risk.Value() >= check(i, Chunks(text, limit)[i]).value.risk.Value()
    ensures ChunkedVerdict(text, limit, check).Ok? ==>
      forall w :: w in ChunkedVerdict(text, limit, check).value.reasons ==>
        exists i :: 0 <= i < |Chunks(text, limit)| && w in check(i, Chunks(text, limit)[i]).value.reasons
    ensures ChunkedVerdict(text, limit, check).Ok? ==>
      forall i, w :: 0 <= i < |Chunks(text, limit)| && w in check(i, Chunks(text, limit)[i]).value.reasons ==>
        w in ChunkedVerdict(text, limit, check).value.reasons
    ensures ChunkedVerdict(text, limit, check).Err? ==>
      exists i :: 0 <= i < |Chunks(text, limit)| && check(i, Chunks(text, limit)[i]).Err?
        && ChunkedVerdict(text, limit, check).fault == WrapDetectFailure(check(i, Chunks(text, limit)[i]).fault)
  {
    var chunks := Chunks(text, limit);
    var outs := ChunkOutcomes(chunks, check);
    var g := Gather(outs);
    var r := ChunkedVerdict(text, limit, check);
    if g.Ok? {
      var v := Aggregate(g.value);
      assert r == Ok(v);
      AggregateIsMaxAndUnion(g.value);
      forall i | 0 <= i < |chunks| ensures check(i, chunks[i]) == Ok(g.value[i]) {
        assert outs[i] == Ok(g.value[i]);
      }
      forall w | w in v.reasons
        ensures exists i :: 0 <= i < |chunks| && w in check(i, chunks[i]).value.reasons
      {
        var i :| 0 <= i < |g.value| && w in g.value[i].reasons;
        assert check(i, chunks[i]).value == g.value[i];
      }
      forall i, w | 0 <= i < |chunks| && w in check(i, chunks[i]).value.reasons
        ensures w in v.reasons
      {
        assert w in g.value[i].reasons;
      }
    } else {
      assert r == Err(WrapDetectFailure(g.fault));
      var i :| 0 <= i < |outs| && outs[i] == Err(g.fault);
      assert check(i, chunks[i]).Err? && r.fault == WrapDetectFailure(check(i, chunks[i]).fault);
    }
  }

  /** A 900-character text against a 600-character limit, where only the second chunk is
      flagged, is blocked for that chunk's reasons alone. */
  lemma SecondHalfBlocked(text: string, reasons: set<string>, check: (nat, string) -> Result<Verdict>)
    requires |text| == 900
    requires check(0, text[..600]) == Ok(Verdict(Pass, {}))
    requires check(1, text[600..]) == Ok(Verdict(Block, reasons))
    ensures ChunkedVerdict(text, 600, check) == Ok(Verdict(Block, reasons))
  {
    var chunks := Chunks(text, 600);
    assert |text[600..]| == 300;
    assert Chunks(text[600..], 600) == [text[600..]];
    assert chunks == [text[..600], text[600..]];
    var outs := ChunkOutcomes(chunks, check);
    assert outs == [Ok(Verdict(Pass, {})), Ok(Verdict(Block, reasons))];
    var vs := [Verdict(Pass, {}), Verdict(Block, reasons)];
    assert outs[0] == Ok(Verdict(Pass, {}));
    assert outs[1..] == [Ok(Verdict(Block, reasons))];
    assert outs[1..][1..] == [];
    assert Gather(outs[1..]) == Ok([Verdict(Block, reasons)] + []);
    assert Gather(outs[1..]).Ok? && Gather(outs[1..]).value == [Verdict(Block, reasons)];
    assert Gather(outs) == Ok([outs[0].value] + Gather(outs[1..]).value);
    assert outs[0].value == vs[0];
    assert [outs[0].value] + Gather(outs[1..]).value == vs;
    assert Gather(outs) == Ok(vs);
    assert vs[..1] == [Verdict(Pass, {})];
    assert vs[..1][..0] == [];
    assert Aggregate(vs[..1]) == Verdict(Pass, {});
    assert Aggregate(vs) == Verdict(Block, {} + reasons);
    assert {} + reasons == reasons;
  }
}
