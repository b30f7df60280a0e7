/** `updateSuperNiche`: the descriptive sentence
    "<niche> for <options joined by ', '> in the <category> niche", or the empty
    string when the niche phrase or the category is empty. */
module Sentence {
  import opened Selection

  /** `selectedElements.map(el => el.option)`. */
  function Options(s: seq<Element>): (r: seq<string>)
    ensures |r| == |s| && forall i :: 0 <= i < |s| ==> r[i] == s[i].option
  {
    if s == [] then [] else [s[0].option] + Options(s[1..])
  }

  /** `Array.prototype.join(sep)` on strings: the items with `sep` between
      neighbours; the empty list joins to "", and any other list starts with
      its first item. */
  function Join(xs: seq<string>, sep: string): (r: string)
    ensures xs == [] ==> r == ""
    ensures xs != [] ==> |xs[0]| <= |r| && r[..|xs[0]|] == xs[0]
  {
    if xs == [] then ""
    else if |xs| == 1 then xs[0]
    else xs[0] + sep + Join(xs[1..], sep)
  }

  /** Where item `i` starts in `Join(xs, sep)`: after every earlier item and
      the separator that follows it. */
  function Offset(xs: seq<string>, sep: string, i: nat): nat
    requires i < |xs|
  {
    if i == 0 then 0 else |xs[0]| + |sep| + Offset(xs[1..], sep, i - 1)
  }

  /** The sentence `updateSuperNiche` stores. JavaScript treats "" as false, so
      the sentence is built only when both the niche and the category are non-empty. */
  function UpdateSuperNiche(st: SelectorState): (r: string)
    ensures r == "" <==> st.customNiche == "" || st.selectedCategory == ""
    ensures r != "" ==> |r| >= |st.customNiche| + 19 + |st.selectedCategory|
    ensures r != "" ==> r[..|st.customNiche| + 5] == st.customNiche + " for "
    ensures r != "" ==> r[|r| - |st.selectedCategory| - 14..] == " in the " + st.selectedCategory + " niche"
    ensures r != "" ==> r[|st.customNiche| + 5..|r| - |st.selectedCategory| - 14] ==
                        Join(Options(st.selectedElements), ", ")
  {
    if st.customNiche != "" && st.selectedCategory != "" then
      var elements := Join(Options(st.selectedElements), ", ");
      var r := st.customNiche + " for " + elements + " in the " + st.selectedCategory + " niche";
      assert r == (st.customNiche + " for ") + elements + (" in the " + st.selectedCategory + " niche");
      r
    else
      ""
  }

  /** Joining one more item appends the separator and the item. */
  lemma {:induction false} JoinAppend(xs: seq<string>, x: string, sep: string)
    ensures Join(xs + [x], sep) == if xs == [] then x else Join(xs, sep) + sep + x
  {
    if |xs| == 1 {
      assert xs + [x] == [xs[0], x];
      assert [xs[0], x][1..] == [x];
    } else if |xs| > 1 {
      assert (xs + [x])[1..] == xs[1..] + [x];
      JoinAppend(xs[1..], x, sep);
    }
  }

  /** The options are listed in record order; appending a record appends its option. */
  lemma {:induction false} OptionsAppend(s: seq<Element>, e: Element)
    ensures Options(s + [e]) == Options(s) + [e.option]
  {
    if s != [] {
      assert (s + [e])[1..] == s[1..] + [e];
      OptionsAppend(s[1..], e);
    }
  }

  /** Right after `handleCategorySelect` the list is empty, so the sentence has
      nothing between " for " and " in the ". */
  lemma SentenceAfterCategorySelect(st: SelectorState, category: string)
    requires st.customNiche != "" && category != ""
    ensures UpdateSuperNiche(HandleCategorySelect(st, category)) ==
            st.customNiche + " for  in the " + category + " niche"
  {
  }

  /** Selecting an option for a dimension not yet selected adds ", " and the
      option at the end of the list part of the sentence, or makes the option
      the whole list part when nothing was selected yet. */
  lemma SentenceAfterNewSelection(st: SelectorState, t: string, o: string)
    requires st.customNiche != "" && st.selectedCategory != ""
    requires !HasKind(st.selectedElements, t)
    ensures UpdateSuperNiche(st.(selectedElements := Upsert(st.selectedElements, t, o))) ==
            st.customNiche + " for " +
            (if st.selectedElements == [] then o else Join(Options(st.selectedElements), ", ") + ", " + o) +
            " in the " + st.selectedCategory + " niche"
  {
    UpsertAppendsNew(st.selectedElements, t, o);
    OptionsAppend(st.selectedElements, Element(t, o));
    JoinAppend(Options(st.selectedElements), o, ", ");
  }

  /** Re-selecting a dimension changes only that dimension's option in the
      sentence, in the same position. */
  lemma OptionsAfterReplace(s: seq<Element>, t: string, o: string, k: int)
    requires FirstOfKind(s, t, k)
    ensures Options(Upsert(s, t, o)) == Options(s)[k := o]
  {
    UpsertReplacesFirst(s, t, o, k);
  }

  /** Every item of `Join(xs, sep)` stands whole at its `Offset`. */
  lemma {:induction false} JoinPieces(xs: seq<string>, sep: string, i: nat)
    requires i < |xs|
    ensures Offset(xs, sep, i) + |xs[i]| <= |Join(xs, sep)|
    ensures Join(xs, sep)[Offset(xs, sep, i)..Offset(xs, sep, i) + |xs[i]|] == xs[i]
  {
    if |xs| > 1 {
      var head := xs[0] + sep;
      var tail := Join(xs[1..], sep);
      assert Join(xs, sep) == head + tail;
      if i > 0 {
        JoinPieces(xs[1..], sep, i - 1);
        assert xs[1..][i - 1] == xs[i];
        var o := Offset(xs[1..], sep, i - 1);
        SliceAfter(head, tail, o, o + |xs[i]|);
      } else {
        assert (head + tail)[..|xs[0]|] == xs[0];
      }
    }
  }

  /** The separator stands between every item and the next, so the items
      appear in list order. */
  lemma {:induction false} JoinSeparators(xs: seq<string>, sep: string, i: nat)
    requires i + 1 < |xs|
    ensures Offset(xs, sep, i + 1) == Offset(xs, sep, i) + |xs[i]| + |sep|
    ensures Offset(xs, sep, i + 1) <= |Join(xs, sep)|
    ensures Join(xs, sep)[Offset(xs, sep, i) + |xs[i]|..Offset(xs, sep, i + 1)] == sep
  {
    var head := xs[0] + sep;
    var tail := Join(xs[1..], sep);
    assert Join(xs, sep) == head + tail;
    if i > 0 {
      JoinSeparators(xs[1..], sep, i - 1);
      assert xs[1..][i - 1] == xs[i];
      var o := Offset(xs[1..], sep, i - 1);
      SliceAfter(head, tail, o + |xs[i]|, Offset(xs[1..], sep, i));
    } else {
      assert Offset(xs, sep, 1) == |head|;
      assert (head + tail)[|xs[0]|..|head|] == sep;
    }
  }

  /** The joined text ends with the last item, which starts at its `Offset`. */
  lemma {:induction false} JoinEnd(xs: seq<string>, sep: string)
    requires xs != []
    ensures |Join(xs, sep)| == Offset(xs, sep, |xs| - 1) + |xs[|xs| - 1]|
  {
    if |xs| > 1 {
      JoinEnd(xs[1..], sep);
      assert xs[1..][|xs| - 2] == xs[|xs| - 1];
    }
  }

  /** A slice of the second part of a concatenation is the slice of that part. */
  lemma SliceAfter<T>(a: seq<T>, m: seq<T>, lo: nat, hi: nat)
    requires lo <= hi <= |m|
    ensures (a + m)[|a| + lo..|a| + hi] == m[lo..hi]
  {
    forall k | 0 <= k < hi - lo
      ensures (a + m)[|a| + lo..|a| + hi][k] == m[lo..hi][k]
    {
      assert (a + m)[|a| + lo + k] == m[lo + k];
    }
  }

  /** A slice of a slice is a slice of the whole. */
  lemma SliceOfSlice<T>(r: seq<T>, from: nat, to: nat, lo: nat, hi: nat)
    requires from <= to <= |r| && lo <= hi <= to - from
    ensures r[from + lo..from + hi] == r[from..to][lo..hi]
  {
    forall k | 0 <= k < hi - lo
      ensures r[from + lo..from + hi][k] == r[from..to][lo..hi][k]
    {
      assert r[from..to][lo + k] == r[from + lo + k];
    }
  }

  /** Inside any text that holds `Join(xs, ", ")` from position `from` on,
      item `i` stands at `from` plus its offset. */
  lemma JoinedItemAt(r: string, from: nat, to: nat, xs: seq<string>, i: nat)
    requires from <= to <= |r| && r[from..to] == Join(xs, ", ") && i < |xs|
    ensures from + Offset(xs, ", ", i) + |xs[i]| <= |r|
    ensures r[from + Offset(xs, ", ", i)..from + Offset(xs, ", ", i) + |xs[i]|] == xs[i]
  {
    JoinPieces(xs, ", ", i);
    var o := Offset(xs, ", ", i);
    SliceOfSlice(r, from, to, o, o + |xs[i]|);
  }

  /** The `i`-th selected option appears whole in the sentence, after the niche
      phrase, " for " and every earlier option with its ", ". `Options(...)[i]`
      is the option of record `i`. */
  lemma SentenceListsOptions(st: SelectorState, i: nat)
    requires st.customNiche != "" && st.selectedCategory != "" && i < |st.selectedElements|
    ensures |st.customNiche| + 5 + Offset(Options(st.selectedElements), ", ", i) +
              |Options(st.selectedElements)[i]| <= |UpdateSuperNiche(st)|
    ensures UpdateSuperNiche(st)[|st.customNiche| + 5 + Offset(Options(st.selectedElements), ", ", i)..
                                 |st.customNiche| + 5 + Offset(Options(st.selectedElements), ", ", i) +
                                 |Options(st.selectedElements)[i]|] == Options(st.selectedElements)[i]
  {
    JoinedItemAt(UpdateSuperNiche(st), |st.customNiche| + 5,
                 |UpdateSuperNiche(st)| - |st.selectedCategory| - 14, Options(st.selectedElements), i);
  }
}
