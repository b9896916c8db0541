/** The consensus engine: one completion call (`completion` with
    `process_result`) and the majority vote of the `Strategy::Sample(n)`
    branch of `conjure`. */
module Consensus {
  import opened Base
  import opened Text
  import opened Seqs

  /** What one completion call returned: a response text or a failure of
      the call (network, timeout, protocol). */
  datatype Reply = Answered(response: string) | Failed

  /** The completion oracle as seen by one request: the reply to the call
      with the given prompt and call number. */
  type Oracle = (string, nat) -> Reply

  /** The answer stored when no sample succeeded (`UNDEF`). */
  const Undefined: string := "undefined"

  /** `process_result`: the response, trimmed. */
  function ProcessResult(s: string): (r: string)
    ensures IsTrimmed(r)
    ensures |r| <= |s|
    ensures IsTrimmed(s) ==> r == s
  {
    TrimTrimmed(s);
    Trim(s)
  }

  /** `completion`: a failed call is an `OracleFailure`, a response is
      trimmed. */
  function Completion(reply: Reply): (r: Result<string>)
    ensures r.Ok? <==> reply.Answered?
    ensures r.Ok? ==> IsTrimmed(r.value) && r.value == ProcessResult(reply.response)
    ensures r.Err? ==> r.error == OracleFailure
  {
    match reply
    case Answered(s) => Ok(ProcessResult(s))
    case Failed => Err(OracleFailure)
  }

  /** The range `lo..hi`. */
  function Range(lo: int, hi: int): (r: seq<int>)
    ensures |r| == if lo < hi then hi - lo else 0
    ensures forall i :: 0 <= i < |r| ==> r[i] == lo + i
    decreases hi - lo
  {
    if lo >= hi then [] else [lo] + Range(lo + 1, hi)
  }

  /** The outcomes of the completion calls of `Sample(n)`: one call for each
      element of `1..n`, so `n - 1` calls, and none when `n` is 0. */
  function Samples(oracle: Oracle, prompt: string, n: u8): (r: seq<Result<string>>)
    ensures |r| == if n >= 1 then n as int - 1 else 0
    ensures forall i :: 0 <= i < |r| ==> r[i] == Completion(oracle(prompt, i + 1))
  {
    var calls := Range(1, n as int);
    seq(|calls|, i requires 0 <= i < |calls| => Completion(oracle(prompt, calls[i])))
  }

  /** The successful values as results again. */
  function AsOk(r: seq<string>): (q: seq<Result<string>>)
    ensures |q| == |r| && forall i :: 0 <= i < |r| ==> q[i] == Ok(r[i])
  {
    seq(|r|, i requires 0 <= i < |r| => Ok(r[i]))
  }

  /** The value `Successes` adds for one more result. */
  function Kept(last: Result<string>): seq<string>
  {
    if last.Ok? then [last.value] else []
  }

  /** One step of `Successes` keeps every success counted once. */
  lemma SuccessesCountStep(init: seq<Result<string>>, last: Result<string>, rest: seq<string>)
    requires forall s :: multiset(rest)[s] == multiset(init)[Ok(s)]
    ensures forall s :: multiset(rest + Kept(last))[s] == multiset(init + [last])[Ok(s)]
  {
    assert multiset(init + [last]) == multiset(init) + multiset{last};
    assert multiset(rest + Kept(last)) == multiset(rest) + multiset(Kept(last));
  }

  /** Equal counts give equal membership. */
  lemma CountsGiveMembers(r: seq<string>, results: seq<Result<string>>)
    requires forall s :: multiset(r)[s] == multiset(results)[Ok(s)]
    ensures forall s :: s in r <==> Ok(s) in results
  {
    forall s
      ensures s in r <==> Ok(s) in results
    {
      assert s in r <==> multiset(r)[s] > 0;
      assert Ok(s) in results <==> multiset(results)[Ok(s)] > 0;
    }
  }

  /** One step of `Successes` keeps the successes in call order. */
  lemma SuccessesOrderStep(init: seq<Result<string>>, last: Result<string>, rest: seq<string>)
    requires IsSubsequence(AsOk(rest), init)
    ensures IsSubsequence(AsOk(rest + Kept(last)), init + [last])
  {
    assert (init + [last])[..|init|] == init;
    if last.Ok? {
      assert AsOk(rest + Kept(last))[..|rest|] == AsOk(rest);
    } else {
      assert rest + Kept(last) == rest;
      SubsequenceExtend(AsOk(rest), init, last);
    }
  }

  /** One step of `Successes`, for the last of `results`. */
  lemma SuccessesStep(results: seq<Result<string>>, rest: seq<string>)
    requires results != []
    requires var init := results[..|results| - 1];
      |rest| <= |init|
      && (forall s :: multiset(rest)[s] == multiset(init)[Ok(s)])
      && IsSubsequence(AsOk(rest), init)
    ensures var r := rest + Kept(results[|results| - 1]);
      |r| <= |results|
      && (forall s :: s in r <==> Ok(s) in results)
      && (forall s :: multiset(r)[s] == multiset(results)[Ok(s)])
      && IsSubsequence(AsOk(r), results)
  {
    var init, last := results[..|results| - 1], results[|results| - 1];
    assert results == init + [last];
    SuccessesCountStep(init, last, rest);
    SuccessesOrderStep(init, last, rest);
    CountsGiveMembers(rest + Kept(last), results);
  }

  /** `filter_map(Result::ok)`: the successful values, failures dropped.
      Each value occurs as often as it was returned, and in the order of the
      calls. */
  function Successes(results: seq<Result<string>>): (r: seq<string>)
    ensures |r| <= |results|
    ensures forall s :: s in r <==> Ok(s) in results
    ensures forall s :: multiset(r)[s] == multiset(results)[Ok(s)]
    ensures IsSubsequence(AsOk(r), results)
    decreases |results|
  {
    if results == [] then []
    else
      var rest := Successes(results[..|results| - 1]);
      SuccessesStep(results, rest);
      rest + Kept(results[|results| - 1])
  }

  /** How often `g` occurs among the samples. */
  function Count(gens: seq<string>, g: string): nat
  {
    multiset(gens)[g]
  }

  /** `c` is an answer the vote may produce: the literal "undefined" when
      nothing succeeded, otherwise one of the successful samples occurring at
      least as often as any other. */
  ghost predicate IsConsensus(gens: seq<string>, c: string)
  {
    (gens == [] ==> c == Undefined)
    && (gens != [] ==> c in gens && forall g :: g in gens ==> Count(gens, g) <= Count(gens, c))
  }

  /** The `for g in gens` loop filling `counts`: each distinct sample is a
      key and its value is the number of its occurrences. */
  method Tally(gens: seq<string>) returns (counts: map<string, nat>)
    ensures forall g :: g in counts <==> g in gens
    ensures forall g :: g in counts ==> counts[g] == Count(gens, g)
  {
    counts := map[];
    for i := 0 to |gens|
      invariant forall g :: g in counts <==> g in gens[..i]
      invariant forall g :: g in counts ==> counts[g] == multiset(gens[..i])[g]
    {
      var g := gens[i];
      assert gens[..i + 1] == gens[..i] + [g];
      counts := counts[g := (if g in counts then counts[g] else 0) + 1];
    }
    assert gens[..|gens|] == gens;
  }

  /** `counts.into_iter().max_by_key(...)`: the map is visited in an order
      the model leaves open, and the last key with the greatest count seen so
      far is kept. Any key of greatest count may come out. */
  method MostFrequent(counts: map<string, nat>) returns (w: Option<string>)
    ensures w.None? <==> counts == map[]
    ensures w.Some? ==> w.value in counts
                        && forall k :: k in counts ==> counts[k] <= counts[w.value]
  {
    w := None;
    var best := 0;
    var rest := counts.Keys;
    while rest != {}
      invariant rest <= counts.Keys
      invariant w.None? ==> rest == counts.Keys
      invariant w.Some? ==> w.value in counts && best == counts[w.value]
                            && forall k :: k in counts && k !in rest ==> counts[k] <= best
      decreases rest
    {
      var k :| k in rest;
      if w.None? || counts[k] >= best {
        w, best := Some(k), counts[k];
      }
      rest := rest - {k};
    }
    if w.None? {
      assert counts.Keys == {};
    }
  }

  /** The vote of `Strategy::Sample`: failed calls are dropped, identical
      answers tallied, and a most frequent one returned; "undefined" when
      nothing succeeded. */
  method Vote(samples: seq<Result<string>>) returns (c: string)
    ensures IsConsensus(Successes(samples), c)
  {
    var gens := Successes(samples);
    var counts := Tally(gens);
    var w := MostFrequent(counts);
    assert gens != [] ==> gens[0] in counts;
    match w
    case None =>
      c := Undefined;
    case Some(v) =>
      c := v;
  }

  /** Both strategies store only trimmed answers: every sample is trimmed,
      and so is "undefined". */
  lemma ConsensusTrimmed(oracle: Oracle, prompt: string, n: u8, c: string)
    requires IsConsensus(Successes(Samples(oracle, prompt, n)), c)
    ensures IsTrimmed(c)
  {
    var samples := Samples(oracle, prompt, n);
    var gens := Successes(samples);
    if gens != [] {
      assert Ok(c) in samples;
      var i :| 0 <= i < |samples| && samples[i] == Ok(c);
      assert samples[i] == Completion(oracle(prompt, i + 1));
    }
  }

  /** The configured count 3 issues two completion calls. */
  lemma SampleThreeCallsTwice(oracle: Oracle, prompt: string)
    ensures Samples(oracle, prompt, 3) == [Completion(oracle(prompt, 1)), Completion(oracle(prompt, 2))]
  {
  }

  /** When every call fails the vote has exactly one possible answer,
      "undefined". */
  lemma AllFailedIsUndefined(samples: seq<Result<string>>, c: string)
    requires forall i :: 0 <= i < |samples| ==> samples[i].Err?
    requires IsConsensus(Successes(samples), c)
    ensures c == Undefined
  {
    assert forall s :: Ok(s) !in samples;
  }
}
