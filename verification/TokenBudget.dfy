// The input token budget of one AI call, spent greedily with redistribution.
module TokenBudget {
  import opened Wrappers
  import opened Text

  const CHARS_PER_APPROX_TOKEN: nat := 4

  const MARKER: string := "\n\n[...] Dokument gekuerzt: das konfigurierte Token-Limit ist erreicht."

  /** The least number of tokens, four characters each, that has room for the text. */
  function ApproxTokenCount(text: string): (n: nat)
    ensures |text| <= n * CHARS_PER_APPROX_TOKEN < |text| + CHARS_PER_APPROX_TOKEN
  {
    (|text| + CHARS_PER_APPROX_TOKEN - 1) / CHARS_PER_APPROX_TOKEN
  }

  function TotalTokens(list: seq<string>): nat {
    if list == [] then 0 else TotalTokens(list[..|list| - 1]) + ApproxTokenCount(list[|list| - 1])
  }

  predicate WordBoundary(c: char) { c == ' ' || c == '\n' }

  /** A prefix of at most `limit` characters: it ends right before the last blank
      or line break if that lies past half of the limit, else at the limit. */
  function CutAtWordBoundary(text: string, limit: nat): (r: string)
    ensures r <= text && |r| <= limit
    ensures |text| > limit ==> 2 * |r| > limit || |r| == limit
    ensures |text| > limit && |r| < limit ==> WordBoundary(text[|r|]) && forall j :: |r| < j < limit ==> !WordBoundary(text[j])
    ensures |text| > limit && |r| == limit ==> forall j :: 0 <= j < limit && WordBoundary(text[j]) ==> 2 * j <= limit
  {
    if |text| <= limit then text
    else
      var head := text[..limit];
      var blank, line := LastIndexOf(head, ' '), LastIndexOf(head, '\n');
      var boundary := if blank >= line then blank else line;
      if 2 * boundary > limit then text[..boundary] else head
  }

  /** Within the limit: the text if it fits, else a prefix, and with a readable
      limit one that uses over half of the room and announces what is missing. */
  function TruncateToChars(text: string, limit: nat): (r: string)
    ensures |r| <= limit || r == text
    ensures |text| <= limit ==> r == text
    ensures |text| > limit && limit < |MARKER| + 20 ==> r == text[..limit]
    ensures |text| > limit >= |MARKER| + 20 ==> exists k :: 0 <= k <= |text| && r == text[..k] + MARKER && 2 * k > limit - |MARKER|
  {
    if |text| <= limit then text
    else
      var budget := limit - |MARKER|;
      if budget < 20 then text[..limit]
      else
        var cut := CutAtWordBoundary(text, budget);
        assert cut == text[..|cut|];
        cut + MARKER
  }

  /** A document against its quota: untouched if it fits, else shortened. */
  function Fitted(text: string, quota: nat): (r: string)
    ensures ApproxTokenCount(r) <= quota
    ensures r == text <==> ApproxTokenCount(text) <= quota
  {
    if ApproxTokenCount(text) <= quota then text else TruncateToChars(text, quota * CHARS_PER_APPROX_TOKEN)
  }

  lemma QuotaFits(tokens: nat, documents: nat)
    requires documents > 0
    ensures 0 <= tokens / documents <= tokens && tokens / documents * documents <= tokens
  {
    var q := tokens / documents;
    assert tokens == q * documents + tokens % documents;
    TimesAtLeast(q, 1, documents);
  }

  lemma TimesAtLeast(q: nat, a: nat, b: nat)
    requires a <= b
    ensures q * a <= q * b
  {
  }

  /** An equal share for each document, rounded down. */
  function Share(tokens: nat, documents: nat): (share: nat)
    requires documents > 0
    ensures share * documents <= tokens && share <= tokens
  {
    QuotaFits(tokens, documents);
    tokens / documents
  }

  /** What is left for the documents after the first k. */
  function Remaining(list: seq<string>, tokens: nat, k: nat): (left: nat)
    requires k <= |list|
  {
    if k == 0 then tokens
    else
      var before := Remaining(list, tokens, k - 1);
      before - ApproxTokenCount(Fitted(list[k - 1], Share(before, |list| - (k - 1))))
  }

  function Quota(list: seq<string>, tokens: nat, k: nat): nat
    requires k < |list|
  {
    Share(Remaining(list, tokens, k), |list| - k)
  }

  function Budgeted(list: seq<string>, tokens: nat): (r: seq<string>)
    ensures |r| == |list| && forall k {:trigger r[k]} :: 0 <= k < |list| ==> r[k] == Fitted(list[k], Quota(list, tokens, k))
  {
    seq(|list|, k requires 0 <= k < |list| => Fitted(list[k], Quota(list, tokens, k)))
  }

  datatype BudgetResult = BudgetResult(contents: seq<string>, truncatedDocuments: nat, totalTokens: nat)
  {
    predicate Truncated() { truncatedDocuments > 0 }
  }

  function ChangedCount(before: seq<string>, after: seq<string>): nat
    requires |before| == |after|
  {
    if before == [] then 0
    else
      var n := |before| - 1;
      ChangedCount(before[..n], after[..n]) + if after[n] != before[n] then 1 else 0
  }

  /** Whether the limit is active; None stands for a value that is not finite. */
  predicate Limited(maxTokens: Option<int>) { maxTokens.Some? && maxTokens.value > 0 }

  function BudgetedContents(list: seq<string>, maxTokens: Option<int>): (r: seq<string>)
    ensures |r| == |list|
  {
    if !Limited(maxTokens) || TotalTokens(list) <= maxTokens.value then list else Budgeted(list, maxTokens.value)
  }

  method SpendBudget(list: seq<string>, maxTokens: nat) returns (result: seq<string>, truncatedDocuments: nat)
    ensures result == Budgeted(list, maxTokens) && truncatedDocuments == ChangedCount(list, result)
  {
    hide Fitted, ApproxTokenCount, TruncateToChars, Share, ChangedCount;
    assert ChangedCount(list[..0], []) == 0 by { NothingChanged([]); }
    result, truncatedDocuments := [], 0;
    var remaining := maxTokens;
    for index := 0 to |list|
      invariant |result| == index && remaining == Remaining(list, maxTokens, index)
      invariant forall k {:trigger result[k]} :: 0 <= k < index ==> result[k] == Fitted(list[k], Quota(list, maxTokens, k))
      invariant truncatedDocuments == ChangedCount(list[..index], result)
    {
      var quota := Share(remaining, |list| - index);
      var text := list[index];
      var used := ApproxTokenCount(text);
      FittedIs(text, quota);
      var next := result + [if used <= quota then text else TruncateToChars(text, quota * CHARS_PER_APPROX_TOKEN)];
      OneMoreChecked(list, result, next, index);
      if used <= quota {
        remaining := remaining - used;
      } else {
        remaining := remaining - ApproxTokenCount(next[index]);
        truncatedDocuments := truncatedDocuments + 1;
      }
      result := next;
    }
    assert list[..|list|] == list;
  }

  lemma FittedIs(text: string, quota: nat)
    ensures Fitted(text, quota) == if ApproxTokenCount(text) <= quota then text else TruncateToChars(text, quota * CHARS_PER_APPROX_TOKEN)
  {
  }

  lemma OneMoreChecked(list: seq<string>, result: seq<string>, next: seq<string>, index: nat)
    requires index < |list| && |result| == index && |next| == index + 1 && next[..index] == result
    ensures ChangedCount(list[..index + 1], next) == ChangedCount(list[..index], result) + if next[index] != list[index] then 1 else 0
  {
    assert list[..index + 1][..index] == list[..index];
  }

  method ApplyInputTokenBudget(list: seq<string>, maxTokens: Option<int>) returns (r: BudgetResult)
    ensures r.contents == BudgetedContents(list, maxTokens) && |r.contents| == |list|
    ensures r.truncatedDocuments == ChangedCount(list, r.contents)
    ensures r.totalTokens == TotalTokens(list)
    ensures r.Truncated() <==> maxTokens.Some? && 0 < maxTokens.value < TotalTokens(list)
    ensures maxTokens.None? || maxTokens.value <= 0 ==> r.contents == list
    ensures maxTokens.Some? && maxTokens.value > 0 ==> TotalTokens(r.contents) <= maxTokens.value
  {
    hide Budgeted, ChangedCount, ApproxTokenCount;
    TruncatedIff(list, maxTokens);
    if Limited(maxTokens) { WithinBudget(list, maxTokens); }
    var total: nat := 0;
    for n := 0 to |list|
      invariant total == TotalTokens(list[..n])
    {
      assert list[..n + 1][..n] == list[..n];
      total := total + ApproxTokenCount(list[n]);
    }
    assert list[..|list|] == list;
    if !Limited(maxTokens) || total <= maxTokens.value {
      NothingChanged(list);
      return BudgetResult(list, 0, total);
    }

    var result, truncatedDocuments := SpendBudget(list, maxTokens.value);
    r := BudgetResult(result, truncatedDocuments, total);
  }

  lemma {:induction false} NothingChanged(list: seq<string>)
    ensures ChangedCount(list, list) == 0
  {
    if list != [] { NothingChanged(list[..|list| - 1]); }
  }

  // --- The guarantee ------------------------------------------------------------------

  lemma {:induction false} SpentAndLeft(list: seq<string>, tokens: nat, k: nat)
    requires k <= |list|
    ensures TotalTokens(Budgeted(list, tokens)[..k]) + Remaining(list, tokens, k) == tokens
  {
    hide Fitted, ApproxTokenCount, Share, Budgeted;
    if k > 0 {
      SpentAndLeft(list, tokens, k - 1);
      assert Budgeted(list, tokens)[..k][..k - 1] == Budgeted(list, tokens)[..k - 1];
    }
  }

  /** The documents handed to the provider never exceed an active limit. */
  lemma WithinBudget(list: seq<string>, maxTokens: Option<int>)
    requires maxTokens.Some? && maxTokens.value > 0
    ensures TotalTokens(BudgetedContents(list, maxTokens)) <= maxTokens.value
  {
    if TotalTokens(list) > maxTokens.value {
      SpentAndLeft(list, maxTokens.value, |list|);
      assert Budgeted(list, maxTokens.value)[..|list|] == Budgeted(list, maxTokens.value);
    }
  }

  /** Applying the budget to its own result changes nothing. */
  lemma BudgetIdempotent(list: seq<string>, maxTokens: Option<int>)
    ensures BudgetedContents(BudgetedContents(list, maxTokens), maxTokens) == BudgetedContents(list, maxTokens)
  {
    if Limited(maxTokens) { WithinBudget(list, maxTokens); }
  }

  // --- Fairness ------------------------------------------------------------------------

  lemma QuotientBelow(x: nat, q: nat, m: nat)
    requires m > 0
    ensures x / m < q ==> x < q * m
  {
    if x / m < q {
      assert x == m * (x / m) + x % m;
      TimesAtLeast(m, x / m + 1, q);
    }
  }

  /** Taking at most an equal share leaves the others at least as much each. */
  lemma ShareGrows(tokens: nat, documents: nat, taken: nat)
    requires documents > 1 && taken <= Share(tokens, documents)
    ensures Share(tokens - taken, documents - 1) >= Share(tokens, documents)
  {
    var q := tokens / documents;
    assert q * documents == q * (documents - 1) + q;
    QuotientBelow(tokens - taken, q, documents - 1);
  }

  lemma NextQuota(list: seq<string>, tokens: nat, k: nat)
    requires k + 1 < |list|
    ensures Quota(list, tokens, k) <= Quota(list, tokens, k + 1)
  {
    hide Fitted, ApproxTokenCount, Share;
    var left := Remaining(list, tokens, k);
    var taken := ApproxTokenCount(Fitted(list[k], Quota(list, tokens, k)));
    assert Remaining(list, tokens, k + 1) == left - taken;
    ShareGrows(left, |list| - k, taken);
  }

  lemma {:induction false} QuotasNeverDecrease(list: seq<string>, tokens: nat, j: nat, k: nat)
    requires j <= k < |list|
    ensures Quota(list, tokens, j) <= Quota(list, tokens, k)
    decreases k - j
  {
    hide Quota;
    if j < k {
      NextQuota(list, tokens, j);
      QuotasNeverDecrease(list, tokens, j + 1, k);
    }
  }

  /** A document of at most an equal share of the limit is returned untouched. */
  lemma FairShareUntouched(list: seq<string>, maxTokens: Option<int>, k: nat)
    requires Limited(maxTokens) && k < |list| && ApproxTokenCount(list[k]) <= Share(maxTokens.value, |list|)
    ensures BudgetedContents(list, maxTokens)[k] == list[k]
  {
    if TotalTokens(list) > maxTokens.value {
      QuotasNeverDecrease(list, maxTokens.value, 0, k);
    }
  }

  // --- When something is shortened -------------------------------------------------------

  lemma {:induction false} ChangedIffDifferent(before: seq<string>, after: seq<string>)
    requires |before| == |after|
    ensures ChangedCount(before, after) == 0 <==> before == after
  {
    if before != [] {
      var n := |before| - 1;
      ChangedIffDifferent(before[..n], after[..n]);
      assert before == before[..n] + [before[n]] && after == after[..n] + [after[n]];
    }
  }

  /** Something is shortened exactly when the limit is active and exceeded. */
  lemma TruncatedIff(list: seq<string>, maxTokens: Option<int>)
    ensures ChangedCount(list, BudgetedContents(list, maxTokens)) > 0 <==> maxTokens.Some? && 0 < maxTokens.value < TotalTokens(list)
  {
    ChangedIffDifferent(list, BudgetedContents(list, maxTokens));
    if Limited(maxTokens) { WithinBudget(list, maxTokens); }
  }
}
