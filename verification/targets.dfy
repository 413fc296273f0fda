/**
 * The target-namespace resolver (`parse_target_namespaces`): it turns the
 * include/exclude annotations of a synced object and a candidate list of
 * namespaces into the namespaces the object is copied to.
 */
module Targets {
  import opened Text
  import opened Lists

  const IncludeKey := "synator/include-namespaces"
  const ExcludeKey := "synator/exclude-namespaces"

  /** The tokens of an include or exclude annotation value: blanks deleted,
      then split on ','. There is always at least one token, so the resolver's
      "no values were parsed" warning can never fire. */
  function Tokens(value: string): (tokens: seq<string>)
    ensures |tokens| >= 1
    ensures forall i :: 0 <= i < |tokens| ==> ',' !in tokens[i]
  {
    Split(RemoveSpaces(value), ',')
  }

  /** The include loop: the tokens that are candidates, in token order. */
  function Included<T(==)>(tokens: seq<T>, candidates: seq<T>): (r: seq<T>)
    ensures |r| <= |tokens|
    ensures forall i :: 0 <= i < |r| ==> r[i] in candidates
  {
    if tokens == [] then []
    else
      var t := tokens[|tokens| - 1];
      Included(tokens[..|tokens| - 1], candidates) + (if t in candidates then [t] else [])
  }

  /** The exclude loop: each token in turn removes its first occurrence, if any. */
  function Excluded<T(==)>(candidates: seq<T>, tokens: seq<T>): (r: seq<T>)
    ensures |r| <= |candidates|
    ensures forall x :: x in r ==> x in candidates
  {
    if tokens == [] then candidates
    else
      var before := Excluded(candidates, tokens[..|tokens| - 1]);
      var after := RemoveFirst(before, tokens[|tokens| - 1]);
      assert forall x :: x in after ==> x in before by {
        forall x | x in after ensures x in before {
          assert multiset(after)[x] > 0;
        }
      }
      after
  }

  /** The namespaces `parse_target_namespaces` returns for these annotations
      and candidates. In every branch each returned namespace is a candidate,
      and without either annotation the candidates come back unchanged. */
  function TargetNamespaces(annotations: map<string, string>, candidates: seq<string>): (targets: seq<string>)
    ensures forall x :: x in targets ==> x in candidates
    ensures IncludeKey !in annotations && ExcludeKey !in annotations ==> targets == candidates
  {
    if IncludeKey in annotations then Included(Tokens(annotations[IncludeKey]), candidates)
    else if ExcludeKey in annotations then Excluded(candidates, Tokens(annotations[ExcludeKey]))
    else candidates
  }

  /** `parse_target_namespaces(meta, namespaces)`. With the include annotation
      it builds a fresh list and leaves the caller's list alone; otherwise it
      returns the caller's own list object, after removing the excluded names
      from it in place. */
  method ParseTargetNamespaces(annotations: map<string, string>, namespaces: MutableList<string>)
    returns (result: MutableList<string>)
    modifies namespaces
    ensures result.items == TargetNamespaces(annotations, old(namespaces.items))
    ensures IncludeKey in annotations ==> fresh(result) && namespaces.items == old(namespaces.items)
    ensures IncludeKey !in annotations ==> result == namespaces
  {
    if IncludeKey in annotations {
      result := CollectIncluded(Tokens(annotations[IncludeKey]), namespaces);
    } else {
      result := namespaces;
      if ExcludeKey in annotations {
        RemoveExcluded(Tokens(annotations[ExcludeKey]), namespaces);
      }
    }
  }

  /** The include loop: a fresh list of the tokens found among the candidates. */
  method CollectIncluded(tokens: seq<string>, namespaces: MutableList<string>)
    returns (result: MutableList<string>)
    ensures fresh(result)
    ensures result.items == Included(tokens, namespaces.items)
  {
    result := new MutableList([]);
    var i := 0;
    while i < |tokens|
      invariant 0 <= i <= |tokens|
      invariant fresh(result)
      invariant result.items == Included(tokens[..i], namespaces.items)
    {
      assert tokens[..i + 1][..i] == tokens[..i];
      if tokens[i] in namespaces.items {
        result.Append(tokens[i]);
      }
      i := i + 1;
    }
    assert tokens[..i] == tokens;
  }

  /** The exclude loop: each token found in the list is removed from it in place. */
  method RemoveExcluded(tokens: seq<string>, namespaces: MutableList<string>)
    modifies namespaces
    ensures namespaces.items == Excluded(old(namespaces.items), tokens)
  {
    ghost var original := namespaces.items;
    var i := 0;
    while i < |tokens|
      invariant 0 <= i <= |tokens|
      invariant namespaces.items == Excluded(original, tokens[..i])
    {
      ExcludedStep(original, tokens, i);
      if tokens[i] in namespaces.items {
        var _ := namespaces.Remove(tokens[i]);
      } else {
        assert RemoveFirst(namespaces.items, tokens[i]) == namespaces.items;
      }
      i := i + 1;
    }
    assert tokens[..i] == tokens;
  }

  /** One more token removes its first occurrence from what the earlier tokens left. */
  lemma ExcludedStep<T>(candidates: seq<T>, tokens: seq<T>, i: nat)
    requires i < |tokens|
    ensures Excluded(candidates, tokens[..i + 1]) == RemoveFirst(Excluded(candidates, tokens[..i]), tokens[i])
  {
    assert tokens[..i + 1][..i] == tokens[..i];
  }

  /** Tokens carry no blanks and no commas. */
  lemma TokensAreClean(value: string, k: nat)
    requires k < |Tokens(value)|
    ensures ' ' !in Tokens(value)[k] && ',' !in Tokens(value)[k]
  {
    var s := RemoveSpaces(value);
    PieceInSplit(s, ',', k);
    var t := Tokens(value)[k];
    var i :| 0 <= i <= |s| - |t| && OccursAt(t, s, i);
  }

  /** Include branch, contents: a namespace appears in the result as often as
      it appears among the tokens if it is a candidate, and not at all otherwise. */
  lemma {:induction false} IncludedCount<T>(tokens: seq<T>, candidates: seq<T>, x: T)
    ensures multiset(Included(tokens, candidates))[x] == if x in candidates then multiset(tokens)[x] else 0
  {
    if tokens != [] {
      var init, t := tokens[..|tokens| - 1], tokens[|tokens| - 1];
      IncludedCount(init, candidates, x);
      CountLast(tokens, x);
    }
  }

  /** Include branch, order: the result lists the kept tokens in token order. */
  lemma {:induction false} IncludedOrder<T>(tokens: seq<T>, candidates: seq<T>)
    ensures IsSubsequence(Included(tokens, candidates), tokens)
  {
    if tokens == [] {
      SubsequenceRefl(tokens);
    } else {
      var init, t := tokens[..|tokens| - 1], tokens[|tokens| - 1];
      IncludedOrder(init, candidates);
      SubsequenceSnoc(Included(init, candidates), init, t);
      assert tokens == init + [t];
      if t in candidates {
        assert Included(tokens, candidates) == Included(init, candidates) + [t];
      } else {
        assert Included(tokens, candidates) == Included(init, candidates);
      }
    }
  }

  /** Exclude branch, contents: each token occurrence removes one occurrence of
      that name if one is left; names that are not tokens keep all their occurrences. */
  lemma {:induction false} ExcludedCount<T>(candidates: seq<T>, tokens: seq<T>, x: T)
    ensures multiset(Excluded(candidates, tokens))[x]
         == if multiset(candidates)[x] >= multiset(tokens)[x]
            then multiset(candidates)[x] - multiset(tokens)[x] else 0
  {
    if tokens != [] {
      var init, t := tokens[..|tokens| - 1], tokens[|tokens| - 1];
      ExcludedCount(candidates, init, x);
      CountLast(tokens, x);
      RemoveFirstCount(Excluded(candidates, init), t, x);
    }
  }

  /** Exclude branch, order: what is left keeps its original order. */
  lemma {:induction false} ExcludedOrder<T>(candidates: seq<T>, tokens: seq<T>)
    ensures IsSubsequence(Excluded(candidates, tokens), candidates)
  {
    if tokens == [] {
      SubsequenceRefl(candidates);
    } else {
      var init, t := tokens[..|tokens| - 1], tokens[|tokens| - 1];
      ExcludedOrder(candidates, init);
      RemoveFirstSubsequence(Excluded(candidates, init), t);
      SubsequenceTrans(Excluded(candidates, tokens), Excluded(candidates, init), candidates);
    }
  }

  /** A sub-list of a list without repetitions has none either. */
  lemma DistinctSubsequence<T>(a: seq<T>, b: seq<T>)
    requires Distinct(b) && IsSubsequence(a, b)
    ensures Distinct(a)
  {
    var idx :| Embedding(idx, a, b);
    forall i, j | 0 <= i < j < |a| ensures a[i] != a[j] {
      assert idx[i] < idx[j];
    }
  }

  /** Exclude branch over a list of distinct names (a cluster's namespace list):
      the result is exactly the candidates that are not tokens. */
  lemma {:induction false} ExcludedDistinct<T>(candidates: seq<T>, tokens: seq<T>)
    requires Distinct(candidates)
    ensures forall x :: x in Excluded(candidates, tokens) <==> x in candidates && x !in tokens
  {
    if tokens != [] {
      var init, t := tokens[..|tokens| - 1], tokens[|tokens| - 1];
      var before := Excluded(candidates, init);
      ExcludedDistinct(candidates, init);
      ExcludedOrder(candidates, init);
      DistinctSubsequence(before, candidates);
      RemoveFirstDistinct(before, t);
      forall x ensures x in tokens <==> x in init || x == t {
        InLast(tokens, x);
      }
    }
  }

  /** Exclude tokens that name no candidate remove nothing. */
  lemma {:induction false} ExcludedAbsentTokens<T>(candidates: seq<T>, tokens: seq<T>)
    requires forall i :: 0 <= i < |tokens| ==> tokens[i] !in candidates
    ensures Excluded(candidates, tokens) == candidates
  {
    if tokens != [] {
      ExcludedAbsentTokens(candidates, tokens[..|tokens| - 1]);
    }
  }

  /** With the include annotation present the exclude annotation makes no difference. */
  lemma IncludeOverridesExclude(annotations: map<string, string>, candidates: seq<string>, value: string)
    requires IncludeKey in annotations
    ensures TargetNamespaces(annotations[ExcludeKey := value], candidates) == TargetNamespaces(annotations, candidates)
    ensures TargetNamespaces(annotations - {ExcludeKey}, candidates) == TargetNamespaces(annotations, candidates)
  {
  }

  /** An exclude value made only of blanks yields the single token "", so it
      removes nothing from a list that has no namespace named "". */
  lemma BlankExcludeRemovesNothing(annotations: map<string, string>, candidates: seq<string>)
    requires IncludeKey !in annotations && ExcludeKey in annotations
    requires forall i :: 0 <= i < |annotations[ExcludeKey]| ==> annotations[ExcludeKey][i] == ' '
    requires "" !in candidates
    ensures TargetNamespaces(annotations, candidates) == candidates
  {
    var value := annotations[ExcludeKey];
    RemoveSpacesOfBlanks(value);
    assert Tokens(value) == [""];
    assert Excluded(candidates, [""]) == RemoveFirst(candidates, "") by {
      assert [""][..0] == [];
    }
  }

  /** Backfill passes the one-element list [name]: only that namespace can be a target. */
  lemma BackfillTargetsOnlyNew(annotations: map<string, string>, name: string)
    ensures forall x :: x in TargetNamespaces(annotations, [name]) ==> x == name
  {
  }

  /** Sync removes the source namespace from the (duplicate-free) cluster list
      first, so the source namespace is never a target. */
  lemma SyncTargetsSkipSource(annotations: map<string, string>, listing: seq<string>, source: string)
    requires Distinct(listing)
    ensures source !in TargetNamespaces(annotations, RemoveFirst(listing, source))
  {
    RemoveFirstDistinct(listing, source);
  }

  /** The include allow-list picks exactly the listed namespaces that exist,
      whatever blanks follow the commas: "team-b, team-c" over the candidates
      [team-b, team-c, team-d] targets team-b and team-c only. */
  lemma IncludeExample(b: string, c: string, d: string, value: string)
    requires b == "team-b" && c == "team-c" && d == "team-d"
    requires value == b + ", " + c
    ensures TargetNamespaces(map[IncludeKey := value], [b, c, d]) == [b, c]
  {
    TokensAfterBlank(b, c);
    IncludedAllPresent([b, c], [b, c, d]);
  }

  /** A blank after the comma does not reach the tokens: "b, c" gives [b, c]. */
  lemma TokensAfterBlank(b: string, c: string)
    requires ' ' !in b && ',' !in b && ' ' !in c && ',' !in c
    ensures Tokens(b + ", " + c) == [b, c]
  {
    var p := b + ",";
    assert b + ", " == p + " ";
    RemoveSpacesAppend(p + " ", c);
    RemoveSpacesAppend(p, " ");
    RemoveSpacesKeeps(p);
    RemoveSpacesKeeps(c);
    assert RemoveSpaces(" ") == "";
    assert RemoveSpaces(p + " ") == p + "" == p;
    assert RemoveSpaces(b + ", " + c) == p + c;
    assert Join([b, c], ',') == p + c;
    SplitJoin([b, c], ',');
  }

  /** When every token names a candidate, the include branch returns the tokens themselves. */
  lemma {:induction false} IncludedAllPresent<T>(tokens: seq<T>, candidates: seq<T>)
    requires forall i :: 0 <= i < |tokens| ==> tokens[i] in candidates
    ensures Included(tokens, candidates) == tokens
  {
    if tokens != [] {
      var init := tokens[..|tokens| - 1];
      IncludedAllPresent(init, candidates);
      assert tokens == init + [tokens[|tokens| - 1]];
    }
  }
}
