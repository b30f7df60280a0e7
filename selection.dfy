/** The selection state of the super-niche selector component: the chosen
    category, the list of `{type, option}` records the user has picked, and the
    free-text niche phrase, together with the two event handlers that change
    them (`handleElementSelect` and `handleCategorySelect`).

    React keeps this state in `useState` slots and every handler hands a whole
    new value to a setter, so the state is modelled as an immutable value and
    each handler as an operation from the old value to the new one. */
module Selection {

  /** One entry of `selectedElements`: the source's `{ type, option }` record.
      `type` is a keyword in Dafny, so the dimension is called `kind`. */
  datatype Element = Element(kind: string, option: string)

  /** The three `useState` slots the scoring and the sentence read. */
  datatype SelectorState = SelectorState(
    selectedCategory: string,
    selectedElements: seq<Element>,
    customNiche: string)

  /** The state the component starts with: no category, no records, no niche. */
  function InitialState(): (st: SelectorState)
    ensures st.selectedCategory == "" && st.selectedElements == [] && st.customNiche == ""
  {
    SelectorState("", [], "")
  }

  /** Some record of `s` is of dimension `t`. */
  predicate HasKind(s: seq<Element>, t: string) {
    exists i :: 0 <= i < |s| && s[i].kind == t
  }

  /** `k` is the index `findIndex(el => el.type === t)` returns: the first record of dimension `t`. */
  predicate FirstOfKind(s: seq<Element>, t: string, k: int) {
    0 <= k < |s| && s[k].kind == t && forall i :: 0 <= i < k ==> s[i].kind != t
  }

  /** At most one record per dimension. */
  predicate UniqueKinds(s: seq<Element>) {
    forall i, j :: 0 <= i < j < |s| ==> s[i].kind != s[j].kind
  }

  /** The number of records of dimension `t`. */
  function CountKind(s: seq<Element>, t: string): nat {
    if s == [] then 0 else (if s[0].kind == t then 1 else 0) + CountKind(s[1..], t)
  }

  /** What `handleElementSelect(t, o)` makes of the list, defined record by record:
      the first record of dimension `t` is replaced, and when there is none the
      new record goes at the end. */
  function Upsert(s: seq<Element>, t: string, o: string): (r: seq<Element>)
    ensures |r| == if HasKind(s, t) then |s| else |s| + 1
  {
    if s == [] then [Element(t, o)]
    else if s[0].kind == t then [Element(t, o)] + s[1..]
    else
      assert HasKind(s, t) <==> HasKind(s[1..], t) by {
        if HasKind(s, t) {
          var i :| 0 <= i < |s| && s[i].kind == t;
          assert s[1..][i - 1].kind == t;
        }
        if HasKind(s[1..], t) {
          var i :| 0 <= i < |s[1..]| && s[1..][i].kind == t;
          assert s[i + 1].kind == t;
        }
      }
      [s[0]] + Upsert(s[1..], t, o)
  }

  /** `Array.prototype.findIndex(el => el.type === t)`: the first index of a
      record of dimension `t`, or -1 when there is none. */
  method FindIndex(s: seq<Element>, t: string) returns (index: int)
    ensures index == -1 <==> !HasKind(s, t)
    ensures index != -1 ==> FirstOfKind(s, t, index)
  {
    index := 0;
    while index < |s| && s[index].kind != t
      invariant 0 <= index <= |s|
      invariant forall i :: 0 <= i < index ==> s[i].kind != t
    {
      index := index + 1;
    }
    if index == |s| {
      index := -1;
    }
  }

  /** `handleElementSelect(type, option)`: copy the list, overwrite the first
      record of that dimension in place or push a new one, and store the copy. */
  method HandleElementSelect(st: SelectorState, t: string, o: string) returns (r: SelectorState)
    ensures r.selectedElements == Upsert(st.selectedElements, t, o)
    ensures r.selectedCategory == st.selectedCategory && r.customNiche == st.customNiche
  {
    var newElements := st.selectedElements;
    var index := FindIndex(newElements, t);
    if index != -1 {
      newElements := newElements[index := Element(t, o)];
      UpsertReplacesFirst(st.selectedElements, t, o, index);
    } else {
      newElements := newElements + [Element(t, o)];
      UpsertAppendsNew(st.selectedElements, t, o);
    }
    r := st.(selectedElements := newElements);
  }

  /** `handleCategorySelect(category)`: set the category and empty the list. */
  function HandleCategorySelect(st: SelectorState, category: string): (r: SelectorState)
    ensures r.selectedCategory == category && r.customNiche == st.customNiche
    ensures r.selectedElements == []
  {
    st.(selectedCategory := category, selectedElements := [])
  }

  /** When a record of dimension `t` is present, the first one is overwritten in
      place: same length, same index, every other record unchanged. */
  lemma {:induction false} UpsertReplacesFirst(s: seq<Element>, t: string, o: string, k: int)
    requires FirstOfKind(s, t, k)
    ensures Upsert(s, t, o) == s[k := Element(t, o)]
  {
    if k > 0 {
      assert s[0].kind != t;
      UpsertReplacesFirst(s[1..], t, o, k - 1);
      assert [s[0]] + s[1..][k - 1 := Element(t, o)] == s[k := Element(t, o)];
    }
  }

  /** When no record of dimension `t` is present, the new record is appended last. */
  lemma {:induction false} UpsertAppendsNew(s: seq<Element>, t: string, o: string)
    requires !HasKind(s, t)
    ensures Upsert(s, t, o) == s + [Element(t, o)]
  {
    if s != [] {
      assert s[0].kind != t;
      assert !HasKind(s[1..], t) by {
        forall i | 0 <= i < |s[1..]| ensures s[1..][i].kind != t {
          assert s[1..][i] == s[i + 1];
        }
      }
      UpsertAppendsNew(s[1..], t, o);
      assert [s[0]] + (s[1..] + [Element(t, o)]) == s + [Element(t, o)];
    }
  }

  /** The number of records of dimension `t` becomes max(1, before); no other
      dimension gains or loses a record. */
  lemma {:induction false} UpsertCounts(s: seq<Element>, t: string, o: string, u: string)
    ensures CountKind(Upsert(s, t, o), t) == if CountKind(s, t) == 0 then 1 else CountKind(s, t)
    ensures u != t ==> CountKind(Upsert(s, t, o), u) == CountKind(s, u)
  {
    if s != [] {
      var r := Upsert(s, t, o);
      assert r[0] == (if s[0].kind == t then Element(t, o) else s[0]);
      if s[0].kind == t {
        assert r[1..] == s[1..];
      } else {
        assert r[1..] == Upsert(s[1..], t, o);
        UpsertCounts(s[1..], t, o, u);
      }
    }
  }

  /** After the upsert the list holds exactly one record of dimension `t`, and
      it carries `o`, provided it held at most one before; the at-most-one-per-
      dimension invariant is kept. */
  lemma UpsertKeepsUnique(s: seq<Element>, t: string, o: string)
    requires UniqueKinds(s)
    ensures UniqueKinds(Upsert(s, t, o))
    ensures exists k :: 0 <= k < |Upsert(s, t, o)| && Upsert(s, t, o)[k] == Element(t, o)
  {
    var r := Upsert(s, t, o);
    if HasKind(s, t) {
      var k :| 0 <= k < |s| && s[k].kind == t;
      assert FirstOfKind(s, t, k);
      UpsertReplacesFirst(s, t, o, k);
      assert r[k] == Element(t, o);
    } else {
      UpsertAppendsNew(s, t, o);
      assert r[|s|] == Element(t, o);
    }
  }

  /** Selecting the same `(type, option)` twice gives the list of selecting it once. */
  lemma {:induction false} UpsertIdempotent(s: seq<Element>, t: string, o: string)
    ensures Upsert(Upsert(s, t, o), t, o) == Upsert(s, t, o)
  {
    if s != [] && s[0].kind != t {
      UpsertIdempotent(s[1..], t, o);
      assert Upsert(s, t, o)[1..] == Upsert(s[1..], t, o);
    }
  }

  /** The user actions that change the three slots: picking a category,
      picking an option of a dimension, and editing the niche phrase (the
      `setCustomNiche` calls of the niche input). */
  datatype Event = PickCategory(category: string) | PickElement(kind: string, option: string) | EditNiche(text: string)

  /** The state after one action; `PickElement` is the list
      `HandleElementSelect` computes. */
  function Step(st: SelectorState, ev: Event): (r: SelectorState)
    ensures ev.PickCategory? ==>
              r.selectedCategory == ev.category && r.selectedElements == [] && r.customNiche == st.customNiche
    ensures ev.PickElement? ==>
              r.selectedCategory == st.selectedCategory &&
              r.selectedElements == Upsert(st.selectedElements, ev.kind, ev.option) &&
              r.customNiche == st.customNiche
    ensures ev.EditNiche? ==>
              r.selectedCategory == st.selectedCategory && r.selectedElements == st.selectedElements &&
              r.customNiche == ev.text
  {
    match ev
    case PickCategory(category) => HandleCategorySelect(st, category)
    case PickElement(kind, option) => st.(selectedElements := Upsert(st.selectedElements, kind, option))
    case EditNiche(text) => st.(customNiche := text)
  }

  /** The state after a sequence of actions, in order. */
  function Run(st: SelectorState, evs: seq<Event>): SelectorState
    decreases |evs|
  {
    if evs == [] then st else Run(Step(st, evs[0]), evs[1..])
  }

  /** No sequence of actions ever puts two records of one dimension in the list. */
  lemma {:induction false} RunKeepsUnique(st: SelectorState, evs: seq<Event>)
    requires UniqueKinds(st.selectedElements)
    ensures UniqueKinds(Run(st, evs).selectedElements)
    decreases |evs|
  {
    if evs != [] {
      if evs[0].PickElement? {
        UpsertKeepsUnique(st.selectedElements, evs[0].kind, evs[0].option);
      }
      RunKeepsUnique(Step(st, evs[0]), evs[1..]);
    }
  }

  /** Every state reachable from the initial one holds at most one record per dimension. */
  lemma ReachableStatesUnique(evs: seq<Event>)
    ensures UniqueKinds(Run(InitialState(), evs).selectedElements)
  {
    RunKeepsUnique(InitialState(), evs);
  }
}
