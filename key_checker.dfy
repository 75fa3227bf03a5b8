/** The secret-key checker: `detect_key_type` and the probe loop of
    `check_stripe_key`. The HTTP GET of each endpoint is replaced by the
    status code it returned, given in endpoint order. */
module KeyChecker {

  /** The endpoint table `tests`: a capability name and its URL, in the
      order the dictionary was written (and is iterated). */
  const Endpoints: seq<(string, string)> := [
    ("Charges Access", "https://api.stripe.com/v1/charges"),
    ("Customers Access", "https://api.stripe.com/v1/customers"),
    ("Refunds Access", "https://api.stripe.com/v1/refunds"),
    ("Balance Access", "https://api.stripe.com/v1/balance"),
    ("Payment Intents Access", "https://api.stripe.com/v1/payment_intents"),
    ("Cards Access", "https://api.stripe.com/v1/payment_methods?type=card"),
    ("Disputes Access", "https://api.stripe.com/v1/disputes")
  ]

  /** Python's `s.startswith(p)`. */
  predicate StartsWith(s: string, p: string)
  {
    |p| <= |s| && s[..|p|] == p
  }

  /** `detect_key_type(sk_key)`: a classification by literal prefix. */
  function DetectKeyType(key: string): (kind: string)
    ensures kind == "Live Key" <==> StartsWith(key, "sk_live")
    ensures kind == "Test Key" <==> StartsWith(key, "sk_test")
    ensures kind == "Unknown Key Type" <==> !StartsWith(key, "sk_live") && !StartsWith(key, "sk_test")
  {
    if StartsWith(key, "sk_live") then "Live Key"
    else if StartsWith(key, "sk_test") then "Test Key"
    else "Unknown Key Type"
  }

  /** A key cannot start with both prefixes, so the order of the two tests in
      `detect_key_type` does not matter. */
  lemma PrefixesExclusive(key: string)
    ensures !(StartsWith(key, "sk_live") && StartsWith(key, "sk_test"))
  {
  }

  /** How one probe turned out, by the response's status code. */
  datatype Outcome = Accessible | Unauthorized | Forbidden | Inaccessible(code: int)

  /** One line of the report: the capability's name and how its probe went. */
  datatype ProbeResult = ProbeResult(name: string, outcome: Outcome)

  /** The `if`/`elif` chain on `response.status_code`. */
  function Classify(status: int): (outcome: Outcome)
    ensures outcome == Accessible <==> status == 200
    ensures outcome == Unauthorized <==> status == 401
    ensures outcome == Forbidden <==> status == 403
    ensures outcome.Inaccessible? <==> status != 200 && status != 401 && status != 403
    ensures outcome.Inaccessible? ==> outcome.code == status
  {
    if status == 200 then Accessible
    else if status == 401 then Unauthorized
    else if status == 403 then Forbidden
    else Inaccessible(status)
  }

  /** A probe passes only when its endpoint answered 200. */
  predicate Passes(outcome: Outcome)
  {
    outcome == Accessible
  }

  /** The number of 200 responses among `statuses`. */
  function CountOk(statuses: seq<int>): (n: nat)
    ensures n <= |statuses|
    decreases |statuses|
  {
    if statuses == [] then 0
    else (if statuses[0] == 200 then 1 else 0) + CountOk(statuses[1..])
  }

  /** Counting the 200s one response further. */
  lemma {:induction false} CountOkAppend(statuses: seq<int>, s: int)
    ensures CountOk(statuses + [s]) == CountOk(statuses) + (if s == 200 then 1 else 0)
    decreases |statuses|
  {
    if statuses == [] {
      assert [s][1..] == [];
    } else {
      assert (statuses + [s])[1..] == statuses[1..] + [s];
      CountOkAppend(statuses[1..], s);
    }
  }

  /** All probes passed exactly when every endpoint answered 200; none passed
      exactly when none did. */
  lemma {:induction false} CountOkExtremes(statuses: seq<int>)
    ensures CountOk(statuses) == |statuses| <==> forall i :: 0 <= i < |statuses| ==> statuses[i] == 200
    ensures CountOk(statuses) == 0 <==> forall i :: 0 <= i < |statuses| ==> statuses[i] != 200
    decreases |statuses|
  {
    if statuses != [] {
      CountOkExtremes(statuses[1..]);
      assert forall i :: 1 <= i < |statuses| ==> statuses[i] == statuses[1..][i - 1];
    }
  }

  /** The probe loop of `check_stripe_key(sk_key)` with the endpoints'
      responses given: the key's type, one result per endpoint in table
      order, and the pass and fail counts of the summary. Only a 200 counts
      as passed; 401, 403 and every other code count as failed. */
  method CheckKey(key: string, statuses: seq<int>)
    returns (keyType: string, results: seq<ProbeResult>, passed: nat, failed: nat)
    requires |statuses| == |Endpoints|
    ensures keyType == DetectKeyType(key)
    ensures |results| == |Endpoints|
    ensures forall i :: 0 <= i < |results| ==>
      results[i].name == Endpoints[i].0 && results[i].outcome == Classify(statuses[i])
    ensures passed == CountOk(statuses)
    ensures passed + failed == |Endpoints| == 7
  {
    keyType := DetectKeyType(key);
    passed, failed := 0, 0;
    results := [];
    for i := 0 to |Endpoints|
      invariant |results| == i
      invariant forall j :: 0 <= j < i ==>
        results[j].name == Endpoints[j].0 && results[j].outcome == Classify(statuses[j])
      invariant passed == CountOk(statuses[..i])
      invariant passed + failed == i
    {
      var testName := Endpoints[i].0;
      var statusCode := statuses[i];
      var outcome := Classify(statusCode);
      if statusCode == 200 {
        passed := passed + 1;
      } else if statusCode == 401 {
        failed := failed + 1;
      } else if statusCode == 403 {
        failed := failed + 1;
      } else {
        failed := failed + 1;
      }
      results := results + [ProbeResult(testName, outcome)];
      assert statuses[..i + 1] == statuses[..i] + [statusCode];
      CountOkAppend(statuses[..i], statusCode);
    }
    assert statuses[..|Endpoints|] == statuses;
  }

  /** The number of results that passed. */
  function PassCount(results: seq<ProbeResult>): (n: nat)
    ensures n <= |results|
    decreases |results|
  {
    if results == [] then 0
    else (if Passes(results[0].outcome) then 1 else 0) + PassCount(results[1..])
  }

  /** The summary's pass count is the number of results reported as
      passed. */
  lemma {:induction false} SummaryMatchesResults(statuses: seq<int>, results: seq<ProbeResult>)
    requires |statuses| == |results|
    requires forall i :: 0 <= i < |results| ==> results[i].outcome == Classify(statuses[i])
    ensures CountOk(statuses) == PassCount(results)
    decreases |statuses|
  {
    if statuses != [] {
      SummaryMatchesResults(statuses[1..], results[1..]);
    }
  }
}
