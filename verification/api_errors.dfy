/** The `except Exception` branch of `GeminiWorker.run`: the text of the raised
    exception is mapped to the message shown to the user by an ordered chain of
    substring rules, the first matching rule winning. */
module ApiErrors {
  import opened Text

  /** The rules, in the order `run`'s `except` branch tries them, plus the fall-through. */
  datatype ErrorKind = InvalidKey | QuotaExceeded | Timeout | PermissionDenied | ModelNotFound | Unknown

  /** The five rules in the order they are tried. */
  const RuleOrder: seq<ErrorKind> := [InvalidKey, QuotaExceeded, Timeout, PermissionDenied, ModelNotFound]

  /** The test each rule applies to the exception text `e`. */
  predicate RuleMatches(k: ErrorKind, e: string)
  {
    match k
    case InvalidKey => Contains(e, "API key not valid") || Contains(e, "API_KEY_INVALID")
    case QuotaExceeded => Contains(Lower(e), "quota") || Contains(e, "RESOURCE_EXHAUSTED")
    case Timeout => Contains(e, "Deadline Exceeded")
    case PermissionDenied => Contains(e, "PermissionDenied") || Contains(Lower(e), "permission denied")
    case ModelNotFound => Contains(e, "NotFound") && Contains(e, "models/")
    case Unknown => false
  }

  /** `k` is the first rule in `RuleOrder` that matches `e`. */
  ghost predicate IsFirstMatch(k: ErrorKind, e: string)
  {
    exists i :: 0 <= i < |RuleOrder| && RuleOrder[i] == k && RuleMatches(k, e)
      && forall j :: 0 <= j < i ==> !RuleMatches(RuleOrder[j], e)
  }

  /** The if/elif chain in the `except` branch of `run`. */
  function Classify(e: string): (k: ErrorKind)
  {
    if Contains(e, "API key not valid") || Contains(e, "API_KEY_INVALID") then InvalidKey
    else if Contains(Lower(e), "quota") || Contains(e, "RESOURCE_EXHAUSTED") then QuotaExceeded
    else if Contains(e, "Deadline Exceeded") then Timeout
    else if Contains(e, "PermissionDenied") || Contains(Lower(e), "permission denied") then PermissionDenied
    else if Contains(e, "NotFound") && Contains(e, "models/") then ModelNotFound
    else Unknown
  }

  /** The chain picks the first matching rule, and falls through exactly when none matches. */
  lemma ClassifyIsFirstMatch(e: string)
    ensures Classify(e) != Unknown ==> IsFirstMatch(Classify(e), e)
    ensures Classify(e) == Unknown <==> forall i :: 0 <= i < |RuleOrder| ==> !RuleMatches(RuleOrder[i], e)
  {
    var k := Classify(e);
    if k == InvalidKey {
      assert RuleOrder[0] == k;
    } else if k == QuotaExceeded {
      assert RuleOrder[1] == k && !RuleMatches(RuleOrder[0], e);
    } else if k == Timeout {
      assert RuleOrder[2] == k;
      assert !RuleMatches(RuleOrder[0], e) && !RuleMatches(RuleOrder[1], e);
    } else if k == PermissionDenied {
      assert RuleOrder[3] == k;
      assert !RuleMatches(RuleOrder[0], e) && !RuleMatches(RuleOrder[1], e)
        && !RuleMatches(RuleOrder[2], e);
    } else if k == ModelNotFound {
      assert RuleOrder[4] == k;
      assert !RuleMatches(RuleOrder[0], e) && !RuleMatches(RuleOrder[1], e)
        && !RuleMatches(RuleOrder[2], e) && !RuleMatches(RuleOrder[3], e);
    }
  }

  /** The first match is unique: no two rules can both be "first". */
  lemma FirstMatchUnique(k1: ErrorKind, k2: ErrorKind, e: string)
    requires IsFirstMatch(k1, e) && IsFirstMatch(k2, e)
    ensures k1 == k2
  {
    var i1 :| 0 <= i1 < |RuleOrder| && RuleOrder[i1] == k1 && RuleMatches(k1, e)
      && forall j :: 0 <= j < i1 ==> !RuleMatches(RuleOrder[j], e);
    var i2 :| 0 <= i2 < |RuleOrder| && RuleOrder[i2] == k2 && RuleMatches(k2, e)
      && forall j :: 0 <= j < i2 ==> !RuleMatches(RuleOrder[j], e);
    assert !(i1 < i2) && !(i2 < i1);
  }

  const Prefix := "API Error: "

  /** The message the worker emits for an exception whose text is `e`. */
  function ApiErrorMessage(e: string): (msg: string)
    ensures |Prefix| <= |msg| && msg[..|Prefix|] == Prefix
    ensures Classify(e) == Unknown ==> msg == Prefix + e
    ensures Classify(e) != Unknown ==> msg == FixedMessage(Classify(e))
  {
    var k := Classify(e);
    if k == Unknown then Prefix + e else FixedMessage(k)
  }

  /** The text after `Prefix` for each recognised rule. */
  function FixedDetail(k: ErrorKind): (detail: string)
  {
    match k
    case InvalidKey => "Invalid API Key. Please check it in Settings."
    case QuotaExceeded => "Quota exceeded. Please check your Google AI usage limits."
    case Timeout => "Request timed out. Please try again."
    case PermissionDenied => "Permission denied. Check API key permissions."
    case ModelNotFound => "Model not found. Check the model name."
    case Unknown => ""
  }

  /** The fixed message for each recognised rule. */
  function FixedMessage(k: ErrorKind): (msg: string)
  {
    Prefix + FixedDetail(k)
  }

  /** A text that matches both the invalid-key rule and the quota rule is an invalid key. */
  lemma InvalidKeyBeatsQuota(e: string)
    requires RuleMatches(InvalidKey, e) && RuleMatches(QuotaExceeded, e)
    ensures Classify(e) == InvalidKey
    ensures ApiErrorMessage(e) == FixedMessage(InvalidKey)
  {
  }

  /** The quota rule ignores case: "quota" written in any casing, anywhere in the
      text, makes the quota rule match, so the text is classified as a quota
      error unless the invalid-key rule already matched. */
  lemma QuotaIgnoresCase(a: string, q: string, b: string)
    requires Lower(q) == "quota"
    ensures RuleMatches(QuotaExceeded, a + q + b)
    ensures Classify(a + q + b) in {InvalidKey, QuotaExceeded}
  {
    var e := a + q + b;
    assert Lower(e) == Lower(a) + "quota" + Lower(b);
    ContainsInfix(Lower(a), "quota", Lower(b));
  }

  /** Lower-casing "NotFound" gives "notfound". */
  lemma LowerNotFound()
    ensures Lower("NotFound") == "notfound"
  {
  }

  /** "NotFound" alone is not enough for the model rule; it also needs "models/". */
  lemma NotFoundNeedsModelsPath()
    ensures Classify("NotFound") == Unknown
    ensures ApiErrorMessage("NotFound") == Prefix + "NotFound"
  {
    var e := "NotFound";
    assert !RuleMatches(InvalidKey, e);
    assert !RuleMatches(QuotaExceeded, e) by {
      LowerNotFound();
      MissingFirstCharRulesOut("notfound", "quota");
    }
    assert !RuleMatches(Timeout, e);
    assert !RuleMatches(PermissionDenied, e) by {
      LowerNotFound();
    }
    assert !RuleMatches(ModelNotFound, e) by {
      assert "models/"[0] == 'm' && 'm' !in e;
      MissingFirstCharRulesOut(e, "models/");
    }
  }
}
