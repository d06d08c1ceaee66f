/** The loop that every coercion entry point runs over a list of
    definitions (variables, arguments, input-object fields), filling a
    LinkedHashMap: per definition, an exception that ends the loop, a `put`
    under the definition's name, or nothing. The loop is a fold over the
    definitions' outcomes; the lemmas say which keys and entries it yields. */
module DefinitionLoop {
  import opened Wrappers
  import opened LinkedMaps
  import opened InputValues

  /** What one definition contributes to the map being filled: an exception
      that ends the loop, an entry under the definition's name, or nothing. */
  type Outcome = Result<Option<Value>, CoercionError>

  /** No two definitions share a name. */
  predicate DistinctNames(names: seq<string>) {
    forall i, j :: 0 <= i < j < |names| ==> names[i] != names[j]
  }

  /** One pass of the loop: stop on an error, put the entry, or leave the map alone. */
  function Record(acc: LinkedMap<Value>, name: string, outcome: Outcome): Result<LinkedMap<Value>, CoercionError> {
    var entry :- outcome;
    Success(if entry.Some? then Put(acc, name, entry.value) else acc)
  }

  /** The map filled from the first `n` definitions, in declaration order; the
      first exception ends the loop. */
  function Fill(names: seq<string>, outcomes: seq<Outcome>, n: nat): Result<LinkedMap<Value>, CoercionError>
    requires n <= |names| && |names| == |outcomes|
  {
    if n == 0 then Success([])
    else
      var acc :- Fill(names, outcomes, n - 1);
      Record(acc, names[n - 1], outcomes[n - 1])
  }

  /** The names whose definitions contributed an entry, in declaration order. */
  function RecordedNames(names: seq<string>, outcomes: seq<Outcome>, n: nat): seq<string>
    requires n <= |names| && |names| == |outcomes|
  {
    if n == 0 then []
    else
      RecordedNames(names, outcomes, n - 1)
      + if outcomes[n - 1].Success? && outcomes[n - 1].value.Some? then [names[n - 1]] else []
  }

  lemma {:induction false} FillFailurePersists(names: seq<string>, outcomes: seq<Outcome>, m: nat, n: nat)
    requires m <= n <= |names| && |names| == |outcomes|
    requires Fill(names, outcomes, m).Failure?
    ensures Fill(names, outcomes, n) == Fill(names, outcomes, m)
    decreases n - m
  {
    if m < n {
      FillFailurePersists(names, outcomes, m, n - 1);
    }
  }

  /** One pass of the loop after `n` successful ones: a map it returns is the
      next prefix, and an exception it raises is what the whole loop yields. */
  lemma FillStep(names: seq<string>, outcomes: seq<Outcome>, n: nat, acc: LinkedMap<Value>,
                 pass: Result<LinkedMap<Value>, CoercionError>)
    requires n < |names| && |names| == |outcomes|
    requires Fill(names, outcomes, n) == Success(acc)
    requires pass == Record(acc, names[n], outcomes[n])
    ensures pass.Success? ==> Fill(names, outcomes, n + 1) == pass
    ensures pass.Failure? ==> Fill(names, outcomes, |names|) == pass
  {
    if pass.Failure? {
      FillFailurePersists(names, outcomes, n + 1, |names|);
    }
  }

  /** The loop completes exactly when no definition raises. */
  lemma {:induction false} FillSucceedsIff(names: seq<string>, outcomes: seq<Outcome>, n: nat)
    requires n <= |names| && |names| == |outcomes|
    ensures Fill(names, outcomes, n).Success? <==> forall i :: 0 <= i < n ==> outcomes[i].Success?
  {
    if n > 0 {
      FillSucceedsIff(names, outcomes, n - 1);
    }
  }

  /** The exception that escapes is the one of the first definition that raises. */
  lemma FillFirstError(names: seq<string>, outcomes: seq<Outcome>, n: nat, i: nat)
    requires i < n <= |names| && |names| == |outcomes|
    requires outcomes[i].Failure? && forall j :: 0 <= j < i ==> outcomes[j].Success?
    ensures Fill(names, outcomes, n) == Failure(outcomes[i].error)
  {
    FillSucceedsIff(names, outcomes, i);
    FillFailurePersists(names, outcomes, i + 1, n);
  }

  /** The exception that escapes the loop is one that a definition raised. */
  lemma {:induction false} FillErrorRaised(names: seq<string>, outcomes: seq<Outcome>, n: nat)
    requires n <= |names| && |names| == |outcomes|
    ensures Fill(names, outcomes, n).Failure? ==>
            exists i :: 0 <= i < n && outcomes[i] == Failure(Fill(names, outcomes, n).error)
  {
    if n > 0 {
      FillErrorRaised(names, outcomes, n - 1);
      if Fill(names, outcomes, n - 1).Success? && Fill(names, outcomes, n).Failure? {
        assert outcomes[n - 1] == Failure(Fill(names, outcomes, n).error);
      }
    }
  }

  /** A name that none of the first `n` definitions has gets no entry. */
  lemma {:induction false} FillAbsent(names: seq<string>, outcomes: seq<Outcome>, n: nat, k: string)
    requires n <= |names| && |names| == |outcomes|
    requires Fill(names, outcomes, n).Success?
    requires forall i :: 0 <= i < n ==> names[i] != k
    ensures Get(Fill(names, outcomes, n).value, k).None?
  {
    if n > 0 {
      FillAbsent(names, outcomes, n - 1, k);
    }
  }

  /** Every key of the filled map is the name of a definition. */
  lemma FillKeysAmongNames(names: seq<string>, outcomes: seq<Outcome>, n: nat)
    requires n <= |names| && |names| == |outcomes|
    requires Fill(names, outcomes, n).Success?
    ensures forall k :: k in Keys(Fill(names, outcomes, n).value) ==> k in names[..n]
  {
    var m := Fill(names, outcomes, n).value;
    forall k | k in Keys(m) ensures k in names[..n] {
      if k !in names[..n] {
        FillAbsent(names, outcomes, n, k);
        HasKeyInKeys(m, k);
      }
    }
  }

  lemma {:induction false} RecordedNamesAmongNames(names: seq<string>, outcomes: seq<Outcome>, n: nat, k: string)
    requires n <= |names| && |names| == |outcomes|
    requires k in RecordedNames(names, outcomes, n)
    ensures k in names[..n]
  {
    if k in RecordedNames(names, outcomes, n - 1) {
      RecordedNamesAmongNames(names, outcomes, n - 1, k);
      assert names[..n - 1] == names[..n][..n - 1];
    } else {
      assert names[..n][n - 1] == names[n - 1];
    }
  }

  /** With distinct names, the next definition's name is not yet recorded. */
  lemma NextNameNotRecorded(names: seq<string>, outcomes: seq<Outcome>, n: nat)
    requires n < |names| && |names| == |outcomes| && DistinctNames(names)
    ensures names[n] !in RecordedNames(names, outcomes, n)
  {
    if names[n] in RecordedNames(names, outcomes, n) {
      RecordedNamesAmongNames(names, outcomes, n, names[n]);
    }
  }

  /** With distinct names, the keys are the names of the definitions that
      contributed an entry, in declaration order. */
  lemma {:induction false} FillKeys(names: seq<string>, outcomes: seq<Outcome>, n: nat)
    requires n <= |names| && |names| == |outcomes| && DistinctNames(names)
    requires Fill(names, outcomes, n).Success?
    ensures Keys(Fill(names, outcomes, n).value) == RecordedNames(names, outcomes, n)
  {
    if n > 0 {
      var acc := Fill(names, outcomes, n - 1).value;
      var k := names[n - 1];
      FillKeys(names, outcomes, n - 1);
      NextNameNotRecorded(names, outcomes, n - 1);
      HasKeyInKeys(acc, k);
      if outcomes[n - 1].value.Some? {
        assert Fill(names, outcomes, n).value == Put(acc, k, outcomes[n - 1].value.value);
      } else {
        assert Fill(names, outcomes, n).value == acc;
      }
    }
  }

  /** With distinct names, every definition's entry is the one it contributed. */
  lemma {:induction false} FillEntry(names: seq<string>, outcomes: seq<Outcome>, n: nat, i: nat)
    requires i < n <= |names| && |names| == |outcomes| && DistinctNames(names)
    requires Fill(names, outcomes, n).Success?
    ensures outcomes[i].Success? && Get(Fill(names, outcomes, n).value, names[i]) == outcomes[i].value
  {
    if i < n - 1 {
      FillEntry(names, outcomes, n - 1, i);
    } else if outcomes[i].value.None? {
      FillAbsent(names, outcomes, n - 1, names[i]);
    }
  }
}
