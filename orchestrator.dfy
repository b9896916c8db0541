/** The orchestrator (`wander` and `conjure`): canonicalise, look up, and on
    a miss build the context and the prompt, run the configured strategy,
    store the answer and return it. */
module Orchestrator {
  import opened Base
  import opened Text
  import opened Pairs
  import opened Answers
  import opened Examples
  import opened Prompting
  import opened Consensus

  /** `Strategy`: one completion, or a vote over `Sample(n)`'s calls. */
  datatype Strategy = Simple | Sample(n: u8)

  /** Which of one request's storage calls fail with an I/O error: the
      lookup, the two `find_triples` of the context and the insert. */
  datatype Faults = Faults(lookup: bool, findA: bool, findB: bool, insert: bool)

  /** The position of the row a lookup returns; none on a miss and when the
      lookup itself fails. */
  function Hit(rows: seq<Triple>, key: Pair, faults: Faults): Option<nat>
  {
    if faults.lookup then None else FirstMatch(rows, key.a, key.b)
  }

  /** The prompt `conjure` compiles for `pair` from the current rows. */
  function PromptFor(narrative: string, rows: seq<Triple>, pair: Pair): string
  {
    Prompt(narrative, pair.a, pair.b, Render(ContextOf(rows, pair)))
  }

  /** `c` is an answer the strategy may produce for `prompt`. `Simple` uses
      the reply to call 0; `Sample(n)` the replies to calls 1 to n - 1. */
  ghost predicate IsAnswer(strategy: Strategy, oracle: Oracle, prompt: string, c: string)
  {
    match strategy
    case Simple => oracle(prompt, 0).Answered? && c == ProcessResult(oracle(prompt, 0).response)
    case Sample(n) => IsConsensus(Successes(Samples(oracle, prompt, n)), c)
  }

  /** Every answer a strategy produces is trimmed. */
  lemma AnswerTrimmed(strategy: Strategy, oracle: Oracle, prompt: string, c: string)
    requires IsAnswer(strategy, oracle, prompt, c)
    ensures IsTrimmed(c)
  {
    if strategy.Sample? {
      ConsensusTrimmed(oracle, prompt, strategy.n, c);
    }
  }

  /** A miss fails when a context lookup fails, when the one call of
      `Simple` fails, or when the insert fails; a failed sample never makes
      it fail. */
  predicate ConjureFails(prompt: string, strategy: Strategy, oracle: Oracle, faults: Faults)
  {
    faults.findA || faults.findB
    || (strategy.Simple? && oracle(prompt, 0).Failed?)
    || faults.insert
  }

  /** The error a failing miss reports. */
  function ConjureError(prompt: string, strategy: Strategy, oracle: Oracle, faults: Faults): AppError
  {
    if !faults.findA && !faults.findB && strategy.Simple? && oracle(prompt, 0).Failed?
    then OracleFailure
    else StoreFailure
  }

  /** Every row is stored under a canonical key. */
  predicate KeysCanonical(rows: seq<Triple>)
  {
    forall i :: 0 <= i < |rows| ==> !Less(rows[i].a, rows[i].b)
  }

  /** Every stored answer is trimmed. */
  predicate AnswersTrimmed(rows: seq<Triple>)
  {
    forall i :: 0 <= i < |rows| ==> IsTrimmed(rows[i].c)
  }

  /** No key is stored twice. */
  predicate UniqueKeys(rows: seq<Triple>)
  {
    forall i, j :: 0 <= i < j < |rows| ==> !HasKey(rows[j], rows[i].a, rows[i].b)
  }

  /** Appending a row keeps each invariant the row itself respects, and the
      row becomes the first match of its key when the key was absent. */
  lemma AppendKeeps(rows: seq<Triple>, t: Triple)
    ensures KeysCanonical(rows) && !Less(t.a, t.b) ==> KeysCanonical(rows + [t])
    ensures AnswersTrimmed(rows) && IsTrimmed(t.c) ==> AnswersTrimmed(rows + [t])
    ensures UniqueKeys(rows) && FirstMatch(rows, t.a, t.b).None? ==> UniqueKeys(rows + [t])
    ensures FirstMatch(rows + [t], t.a, t.b).Some?
    ensures FirstMatch(rows, t.a, t.b).None? ==> FirstMatch(rows + [t], t.a, t.b) == Some(|rows|)
  {
    FirstMatchAppend(rows, t, t.a, t.b);
    var all := rows + [t];
    if KeysCanonical(rows) && !Less(t.a, t.b) {
      forall i | 0 <= i < |all| ensures !Less(all[i].a, all[i].b) {
        if i < |rows| { assert all[i] == rows[i]; }
      }
    }
    if AnswersTrimmed(rows) && IsTrimmed(t.c) {
      forall i | 0 <= i < |all| ensures IsTrimmed(all[i].c) {
        if i < |rows| { assert all[i] == rows[i]; }
      }
    }
    if UniqueKeys(rows) && FirstMatch(rows, t.a, t.b).None? {
      AppendUnique(rows, t);
    }
  }

  lemma AppendUnique(rows: seq<Triple>, t: Triple)
    requires UniqueKeys(rows)
    requires forall j :: 0 <= j < |rows| ==> !HasKey(rows[j], t.a, t.b)
    ensures UniqueKeys(rows + [t])
  {
    var all := rows + [t];
    forall i, j | 0 <= i < j < |all|
      ensures !HasKey(all[j], all[i].a, all[i].b)
    {
      assert all[i] == rows[i];
      if j < |rows| {
        assert all[j] == rows[j];
      }
    }
  }

  /** `AppState`: the store, the configured strategy and the prompt
      template's narrative. The model name and temperature are only passed
      to the oracle and are left out. */
  class AppState {
    const store: Store
    const strategy: Strategy
    const narrative: string

    constructor (store: Store, strategy: Strategy)
      ensures this.store == store && this.strategy == strategy
      ensures narrative == Narrative
    {
      this.store := store;
      this.strategy := strategy;
      narrative := Narrative;
    }

    /** `conjure`: generate an answer for the canonical `pair`, store it,
        and return it. */
    method Conjure(pair: Pair, oracle: Oracle, faults: Faults) returns (r: Result<Triple>)
      modifies store
      ensures r.Err? <==> ConjureFails(PromptFor(narrative, old(store.rows), pair), strategy, oracle, faults)
      ensures r.Err? ==> r.error == ConjureError(PromptFor(narrative, old(store.rows), pair), strategy, oracle, faults)
                         && store.rows == old(store.rows)
      ensures r.Ok? ==> r.value.a == pair.a && r.value.b == pair.b
                        && IsAnswer(strategy, oracle, PromptFor(narrative, old(store.rows), pair), r.value.c)
                        && store.rows == old(store.rows) + [r.value]
    {
      var examples := GetExamples(store, pair, faults.findA, faults.findB);
      if examples.Err? {
        return Err(examples.error);
      }
      var p := Prompt(narrative, pair.a, pair.b, examples.value);
      var c: string;
      match strategy {
        case Simple =>
          var reply := Completion(oracle(p, 0));
          if reply.Err? {
            return Err(reply.error);
          }
          c := reply.value;
        case Sample(n) =>
          c := Vote(Samples(oracle, p, n));
      }
      var inserted := store.InsertTriple(pair.a, pair.b, c, faults.insert);
      if inserted.Err? {
        return Err(inserted.error);
      }
      r := Ok(Triple(pair.a, pair.b, c));
    }

    /** `wander`: a hit returns the stored row and changes nothing; a miss,
        or a failed lookup, conjures and appends exactly one row under the
        canonical key. Afterwards the key is a hit. */
    method Wander(p: Pair, oracle: Oracle, faults: Faults) returns (r: Result<Triple>)
      modifies store
      ensures var k, before := Canonical(p), old(store.rows);
        Hit(before, k, faults).Some? ==>
          r == Ok(before[Hit(before, k, faults).value]) && store.rows == before
      ensures var k, before := Canonical(p), old(store.rows);
        Hit(before, k, faults).None? ==>
          (r.Err? <==> ConjureFails(PromptFor(narrative, before, k), strategy, oracle, faults))
          && (r.Err? ==> r.error == ConjureError(PromptFor(narrative, before, k), strategy, oracle, faults)
                         && store.rows == before)
          && (r.Ok? ==> r.value.a == k.a && r.value.b == k.b
                        && IsAnswer(strategy, oracle, PromptFor(narrative, before, k), r.value.c)
                        && store.rows == before + [r.value])
      ensures r.Ok? ==> FirstMatch(store.rows, Canonical(p).a, Canonical(p).b).Some?
      ensures r.Ok? && !faults.lookup ==>
        var m := FirstMatch(store.rows, Canonical(p).a, Canonical(p).b);
        m.Some? && store.rows[m.value] == r.value
      ensures KeysCanonical(old(store.rows)) ==> KeysCanonical(store.rows)
      ensures AnswersTrimmed(old(store.rows)) ==> AnswersTrimmed(store.rows)
      ensures UniqueKeys(old(store.rows)) && !faults.lookup ==> UniqueKeys(store.rows)
    {
      var k := Canonical(p);
      ghost var before := store.rows;
      var g := store.GetTriple(k.a, k.b, faults.lookup);
      match g
      case Ok(t) =>
        r := Ok(t);
      case Err(_) =>
        r := Conjure(k, oracle, faults);
        if r.Ok? {
          AnswerTrimmed(strategy, oracle, PromptFor(narrative, before, k), r.value.c);
          AppendKeeps(before, r.value);
        }
    }

    /** Two requests for the same canonical key in a row, for instance
        "A + B" and then "B + A": when both lookups succeed the second is a
        hit and returns what the first returned. */
    method WanderTwice(p: Pair, q: Pair, oracle: Oracle, first: Faults, second: Faults)
      returns (r1: Result<Triple>, r2: Result<Triple>)
      modifies store
      requires Canonical(q) == Canonical(p)
      ensures r1.Ok? && !first.lookup && !second.lookup ==> r2 == r1
      ensures r1.Ok? && !second.lookup ==> r2.Ok? && |store.rows| <= |old(store.rows)| + 1
    {
      r1 := Wander(p, oracle, first);
      r2 := Wander(q, oracle, second);
    }
  }
}
