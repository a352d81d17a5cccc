/**
 The recommendation panel's step selection: clicking a resolution step card
 toggles its id in the list of selected step ids. The list is used as a set,
 but it is a list: toggling an absent id appends it, toggling a present id
 removes every occurrence of it.
 */
module StepSelection {
  import opened Sequences

  /** The ids of the selected steps, in the order they were selected. */
  type Selection = seq<int>

  /** A newly opened panel has no step selected. */
  function InitialSelection(): (selected: Selection)
    ensures forall stepId :: !IsSelected(selected, stepId)
  {
    []
  }

  /** A step card is highlighted when its id is in the selection. */
  predicate IsSelected(selected: Selection, stepId: int) {
    stepId in selected
  }

  /** No id occurs twice. */
  predicate NoDuplicates(selected: Selection) {
    forall i, j | 0 <= i < j < |selected| :: selected[i] != selected[j]
  }

  /** The effect of clicking the card of step `stepId`. */
  function Toggle(selected: Selection, stepId: int): (r: Selection)
    ensures IsSelected(r, stepId) <==> !IsSelected(selected, stepId)
    ensures forall other :: other != stepId ==> (IsSelected(r, other) <==> IsSelected(selected, other))
    ensures !IsSelected(selected, stepId) ==> |r| == |selected| + 1 && r[..|selected|] == selected && r[|selected|] == stepId
    ensures IsSelected(selected, stepId) ==> IsSubsequence(r, selected) && multiset(r) == multiset(selected)[stepId := 0]
  {
    if stepId in selected then Without(selected, stepId) else selected + [stepId]
  }

  /** Clicking an unselected step twice restores exactly the original selection. */
  lemma ToggleTwiceRestores(selected: Selection, stepId: int)
    requires !IsSelected(selected, stepId)
    ensures Toggle(Toggle(selected, stepId), stepId) == selected
  {
    var once := Toggle(selected, stepId);
    assert once == selected + [stepId];
    var twice := Toggle(once, stepId);
    // the selection is one subsequence of `once` that drops every stepId and keeps the rest
    assert once[..|selected|] == selected;
    PrefixIsSubsequence(selected, once);
    assert multiset(once) == multiset(selected) + multiset{stepId};
    assert multiset(selected)[stepId] == 0;
    assert multiset(selected) == multiset(once)[stepId := 0];
    WithoutUnique(once, stepId, selected);
  }

  /** Deselecting keeps the other selected ids in their relative order. */
  lemma DeselectKeepsOrder(selected: Selection, stepId: int, i: int, j: int)
    requires IsSelected(selected, stepId)
    requires 0 <= i < j < |selected| && selected[i] != stepId && selected[j] != stepId
    ensures IsSubsequence([selected[i], selected[j]], Toggle(selected, stepId))
  {
    KeptPairStaysOrdered(selected, stepId, i, j);
  }

  /** Removing a value keeps any pair of other elements in their relative order. */
  lemma {:induction false} KeptPairStaysOrdered(s: seq<int>, x: int, i: int, j: int)
    requires 0 <= i < j < |s| && s[i] != x && s[j] != x
    ensures IsSubsequence([s[i], s[j]], Without(s, x))
    decreases |s|
  {
    var rest := Without(s[1..], x);
    if i == 0 {
      assert s[j] == s[1..][j - 1];
      assert s[j] in rest by { assert s[j] in multiset(s[1..]); assert multiset(rest)[s[j]] > 0; }
      ElementIsSubsequence(rest, s[j]);
      assert Without(s, x) == [s[0]] + rest;
      assert [s[0], s[j]][1..] == [s[j]];
    } else {
      KeptPairStaysOrdered(s[1..], x, i - 1, j - 1);
      assert s[1..][i - 1] == s[i] && s[1..][j - 1] == s[j];
      if s[0] == x {
        assert Without(s, x) == rest;
      } else {
        assert Without(s, x) == [s[0]] + rest;
        assert ([s[0]] + rest)[1..] == rest;
      }
    }
  }

  /** A single element of a sequence is a subsequence of it. */
  lemma {:induction false} ElementIsSubsequence(s: seq<int>, y: int)
    requires y in s
    ensures IsSubsequence([y], s)
    decreases |s|
  {
    if s[0] != y {
      ElementIsSubsequence(s[1..], y);
    }
  }

  /** Toggling keeps a duplicate-free selection duplicate-free. */
  lemma {:induction false} ToggleKeepsNoDuplicates(selected: Selection, stepId: int)
    requires NoDuplicates(selected)
    ensures NoDuplicates(Toggle(selected, stepId))
  {
    var r := Toggle(selected, stepId);
    if IsSelected(selected, stepId) {
      SubsequenceNoDuplicates(r, selected);
    } else {
      forall i, j | 0 <= i < j < |r| ensures r[i] != r[j] {
        if j == |selected| {
          assert r[i] == selected[i];
        } else {
          assert r[i] == selected[i] && r[j] == selected[j];
        }
      }
    }
  }

  /** A subsequence of a duplicate-free sequence is duplicate-free. */
  lemma {:induction false} SubsequenceNoDuplicates(sub: seq<int>, s: seq<int>)
    requires IsSubsequence(sub, s) && NoDuplicates(s)
    ensures NoDuplicates(sub)
    decreases |s|
  {
    if |sub| > 0 {
      assert NoDuplicates(s[1..]) by {
        forall i, j | 0 <= i < j < |s[1..]| ensures s[1..][i] != s[1..][j] {
          assert s[1..][i] == s[i + 1] && s[1..][j] == s[j + 1];
        }
      }
      if sub[0] == s[0] && IsSubsequence(sub[1..], s[1..]) {
        SubsequenceNoDuplicates(sub[1..], s[1..]);
        SubsequenceMultiset(sub[1..], s[1..]);
        assert s[0] !in s[1..] by {
          forall k | 0 <= k < |s[1..]| ensures s[1..][k] != s[0] {
            assert s[1..][k] == s[k + 1];
          }
        }
        forall i, j | 0 <= i < j < |sub| ensures sub[i] != sub[j] {
          if i == 0 {
            assert sub[j] == sub[1..][j - 1];
            assert sub[j] in s[1..];
          } else {
            assert sub[i] == sub[1..][i - 1] && sub[j] == sub[1..][j - 1];
          }
        }
      } else {
        SubsequenceNoDuplicates(sub, s[1..]);
      }
    }
  }
}
