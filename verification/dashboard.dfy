/** The dashboard's local bookkeeping: how its list of parts changes after
    a create, an update or a delete request, the totals shown beside it,
    and the row colour. The requests themselves are inputs: `None` stands
    for a request that failed (the page only alerts). */
module Dashboard {
  import opened Base
  import opened JsValue
  import opened ClientParts

  /** The row gradients, chosen by part id. */
  const Gradients := [
    "from-blue-400 to-indigo-500", "from-green-400 to-emerald-500", "from-pink-400 to-rose-500",
    "from-yellow-400 to-orange-500", "from-purple-400 to-fuchsia-500", "from-cyan-400 to-sky-500",
    "from-teal-400 to-lime-500", "from-amber-400 to-pink-500", "from-violet-400 to-cyan-500",
    "from-red-400 to-yellow-500"
  ]

  const Uncategorized := "Uncategorized"

  /** The page state that the list updates touch: the parts shown and the
      part being edited, if any. */
  datatype State = State(parts: seq<Part>, editing: Option<Part>)

  // -----------------------------------------------------------------------
  // List updates

  /** `prev.map(p => p.id === updated.id ? updated : p)`. */
  function ReplaceById(parts: seq<Part>, updated: Part): (r: seq<Part>)
    ensures |r| == |parts|
    ensures forall i :: 0 <= i < |parts| && parts[i].id == updated.id ==> r[i] == updated
    ensures forall i :: 0 <= i < |parts| && parts[i].id != updated.id ==> r[i] == parts[i]
  {
    seq(|parts|, i requires 0 <= i < |parts| => if parts[i].id == updated.id then updated else parts[i])
  }

  /** `prev.filter(p => p.id !== id)`. */
  function RemoveById(parts: seq<Part>, id: int): (r: seq<Part>)
    ensures forall x :: x in r <==> x in parts && x.id != id
    ensures |r| <= |parts|
  {
    if |parts| == 0 then []
    else (if parts[0].id != id then [parts[0]] else []) + RemoveById(parts[1..], id)
  }

  /** Removal keeps the remaining parts in their order. */
  lemma {:induction false} RemoveKeepsOrder(parts: seq<Part>, id: int)
    ensures IsSubsequence(RemoveById(parts, id), parts)
  {
    if |parts| > 0 {
      RemoveKeepsOrder(parts[1..], id);
      var rest := RemoveById(parts[1..], id);
      if parts[0].id != id {
        assert RemoveById(parts, id) == [parts[0]] + rest;
        assert ([parts[0]] + rest)[1..] == rest;
      } else {
        assert RemoveById(parts, id) == rest;
      }
    }
  }

  /** Removing an id no part has changes nothing. */
  lemma {:induction false} RemoveAbsent(parts: seq<Part>, id: int)
    requires forall x :: x in parts ==> x.id != id
    ensures RemoveById(parts, id) == parts
  {
    if |parts| > 0 {
      assert parts[0] in parts;
      RemoveAbsent(parts[1..], id);
      assert parts == [parts[0]] + parts[1..];
    }
  }

  /** `createPart`: a created part goes to the front; a failure changes
      nothing. */
  function AfterCreate(st: State, created: Option<Part>): (r: State)
    ensures created.None? ==> r == st
    ensures created.Some? ==> r.parts == [created.value] + st.parts && r.editing == st.editing
  {
    match created
    case None => st
    case Some(p) => st.(parts := [p] + st.parts)
  }

  /** `updatePart`: nothing happens while no part is being edited or when
      the request fails; otherwise every part with the returned part's id
      is replaced by it and editing ends. */
  function AfterUpdate(st: State, updated: Option<Part>): (r: State)
    ensures st.editing.None? || updated.None? ==> r == st
    ensures st.editing.Some? && updated.Some? ==>
              r == State(ReplaceById(st.parts, updated.value), None)
  {
    if st.editing.None? then st
    else
      match updated
      case None => st
      case Some(u) => State(ReplaceById(st.parts, u), None)
  }

  /** `deletePart(id)`: only a confirmed, successful delete removes the id. */
  function AfterDelete(st: State, id: int, confirmed: bool, succeeded: bool): (r: State)
    ensures r.editing == st.editing
    ensures !(confirmed && succeeded) ==> r == st
    ensures confirmed && succeeded ==> r.parts == RemoveById(st.parts, id)
  {
    if confirmed && succeeded then st.(parts := RemoveById(st.parts, id)) else st
  }

  /** Deleting a just-created part whose id was new restores the list. */
  lemma CreateThenDeleteRestores(st: State, created: Part)
    requires forall x :: x in st.parts ==> x.id != created.id
    ensures AfterDelete(AfterCreate(st, Some(created)), created.id, true, true) == st
  {
    var parts := [created] + st.parts;
    assert parts[1..] == st.parts;
    RemoveAbsent(st.parts, created.id);
  }

  /** After a successful update the list has the same length, every entry
      with the updated id is the updated part, and no other entry moved or
      changed. */
  lemma UpdateReplacesOnlyThatId(st: State, updated: Part)
    requires st.editing.Some?
    ensures var r := AfterUpdate(st, Some(updated));
            && |r.parts| == |st.parts|
            && (forall i :: 0 <= i < |r.parts| ==>
                  r.parts[i] == (if st.parts[i].id == updated.id then updated else st.parts[i]))
            && r.editing.None?
  {
  }

  // -----------------------------------------------------------------------
  // Totals

  function CategoryLabel(p: Part): string
  {
    OrElse(p.category, Uncategorized)
  }

  /** `parts.map(p => p.category || "Uncategorized")`. */
  function Labels(parts: seq<Part>): (r: seq<string>)
    ensures |r| == |parts|
    ensures forall i :: 0 <= i < |parts| ==> r[i] == CategoryLabel(parts[i])
  {
    seq(|parts|, i requires 0 <= i < |parts| => CategoryLabel(parts[i]))
  }

  predicate NoDuplicates(xs: seq<string>)
  {
    forall i, j :: 0 <= i < j < |xs| ==> xs[i] != xs[j]
  }

  /** `Array.from(new Set(xs))`: each value once, in order of first
      appearance. */
  function Distinct(xs: seq<string>): (r: seq<string>)
    ensures forall x :: x in r <==> x in xs
    ensures NoDuplicates(r)
    ensures |r| <= |xs|
  {
    if |xs| == 0 then []
    else
      var d := Distinct(xs[..|xs| - 1]);
      var x := xs[|xs| - 1];
      assert xs == xs[..|xs| - 1] + [x];
      if x in d then d else d + [x]
  }

  /** A sequence without duplicates is as long as the set of its elements. */
  lemma {:induction false} NoDuplicatesCardinality(xs: seq<string>)
    requires NoDuplicates(xs)
    ensures |set x | x in xs| == |xs|
  {
    if |xs| > 0 {
      var init := xs[..|xs| - 1];
      var last := xs[|xs| - 1];
      NoDuplicatesCardinality(init);
      assert (set x | x in xs) == (set x | x in init) + {last};
      assert last !in (set x | x in init);
    }
  }

  function TotalParts(parts: seq<Part>): nat
  {
    |parts|
  }

  /** The distinct labels are exactly the labels of the parts, once each. */
  lemma DistinctLabelsCount(parts: seq<Part>)
    ensures |Distinct(Labels(parts))| == |set p | p in parts :: CategoryLabel(p)|
    ensures |parts| > 0 ==> |Distinct(Labels(parts))| >= 1
  {
    var d := Distinct(Labels(parts));
    NoDuplicatesCardinality(d);
    assert (set x | x in d) == set p | p in parts :: CategoryLabel(p) by {
      forall x | x in d
        ensures x in set p | p in parts :: CategoryLabel(p)
      {
        var i :| 0 <= i < |parts| && Labels(parts)[i] == x;
        assert parts[i] in parts;
      }
      forall p | p in parts
        ensures CategoryLabel(p) in d
      {
        var i :| 0 <= i < |parts| && parts[i] == p;
        assert Labels(parts)[i] == CategoryLabel(p);
      }
    }
    if |parts| > 0 {
      assert Labels(parts)[0] in d;
    }
  }

  /** The "Categories" figure: the number of distinct labels, at most the
      number of parts and at least one when there are parts. */
  function Categories(parts: seq<Part>): (n: nat)
    ensures n == |set p | p in parts :: CategoryLabel(p)|
    ensures n <= TotalParts(parts)
    ensures |parts| > 0 ==> n >= 1
  {
    DistinctLabelsCount(parts);
    |Distinct(Labels(parts))|
  }

  // -----------------------------------------------------------------------
  // Row colour

  /** JavaScript's `%`, which truncates toward zero. */
  function JsRemainder(a: int, b: int): (r: int)
    requires b > 0
    ensures a >= 0 ==> r == a % b
    ensures a < 0 ==> -b < r <= 0
    ensures a < 0 ==> r == -((-a) % b)
  {
    if a >= 0 then a % b else -((-a) % b)
  }

  /** The truncating remainder is odd in the dividend, unlike Dafny's
      Euclidean `%`: `-7 % 10` is -7 in JavaScript and 3 in Dafny. */
  lemma JsRemainderOfNegation(a: int, b: int)
    requires b > 0
    ensures JsRemainder(-a, b) == -JsRemainder(a, b)
    ensures JsRemainder(-7, 10) == -7 && (-7) % 10 == 3
  {
  }

  /** `p.id % gradients.length`: a valid index for every id the database
      hands out (they are non-negative); a negative id would index before
      the array. */
  function GradientIndex(id: int): (k: int)
    ensures id >= 0 ==> 0 <= k < |Gradients|
    ensures id < 0 && id % 10 != 0 ==> k < 0
  {
    JsRemainder(id, |Gradients|)
  }
}
