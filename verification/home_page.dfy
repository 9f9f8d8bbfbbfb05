/** The catalogue page's client-side logic: the search filter over the
    server-rendered parts, the card colour of each shown part and the empty
    state. Letters are lower-cased in the ASCII range only. */
module HomePage {
  import opened Base
  import opened Text
  import opened JsValue
  import opened ClientParts

  /** The card gradients, cycled through by position. */
  const Colors := [
    "from-blue-500 to-indigo-500", "from-green-500 to-emerald-500", "from-pink-500 to-rose-500",
    "from-yellow-500 to-orange-500", "from-purple-500 to-fuchsia-500", "from-cyan-500 to-sky-500",
    "from-teal-500 to-lime-500", "from-amber-500 to-pink-500", "from-violet-500 to-cyan-500",
    "from-red-500 to-yellow-500", "from-emerald-500 to-blue-500", "from-rose-500 to-purple-500",
    "from-orange-500 to-red-500", "from-sky-500 to-blue-700", "from-lime-500 to-green-700"
  ]

  /** The text a query is searched in: name, brand and category joined by
      spaces, a missing brand or category counting as "". */
  function SearchText(p: Part): string
  {
    p.name + " " + OrElse(p.brand, "") + " " + OrElse(p.category, "")
  }

  predicate Matches(p: Part, query: string)
  {
    Includes(Lower(SearchText(p)), Lower(query))
  }

  /** A part whose name contains the query, ignoring case, is shown,
      whatever its brand and category. */
  lemma NameMatchShown(p: Part, query: string)
    requires Includes(Lower(p.name), Lower(query))
    ensures Matches(p, query)
  {
    var rest := " " + OrElse(p.brand, "") + " " + OrElse(p.category, "");
    assert SearchText(p) == p.name + rest;
    LowerOfConcat(p.name, rest);
    IncludesInPrefix(Lower(p.name), Lower(rest), Lower(query));
  }

  /** `parts.filter(...)`: the parts whose search text contains the query,
      ignoring case. */
  function Filtered(parts: seq<Part>, query: string): (r: seq<Part>)
    ensures |r| <= |parts|
    ensures forall x :: x in r <==> x in parts && Matches(x, query)
  {
    if |parts| == 0 then []
    else (if Matches(parts[0], query) then [parts[0]] else []) + Filtered(parts[1..], query)
  }

  /** The shown parts keep their order: the filter only leaves parts out. */
  lemma {:induction false} FilteredIsSubsequence(parts: seq<Part>, query: string)
    ensures IsSubsequence(Filtered(parts, query), parts)
  {
    if |parts| > 0 {
      FilteredIsSubsequence(parts[1..], query);
      var rest := Filtered(parts[1..], query);
      if Matches(parts[0], query) {
        assert Filtered(parts, query) == [parts[0]] + rest;
        assert ([parts[0]] + rest)[1..] == rest;
      } else {
        assert Filtered(parts, query) == rest;
        SubsequenceOfTail(rest, parts);
      }
    }
  }

  lemma SubsequenceOfTail(xs: seq<Part>, ys: seq<Part>)
    requires |ys| > 0 && IsSubsequence(xs, ys[1..])
    ensures IsSubsequence(xs, ys)
  {
  }

  /** An empty query shows every part. */
  lemma {:induction false} EmptyQueryKeepsAll(parts: seq<Part>)
    ensures Filtered(parts, "") == parts
  {
    if |parts| > 0 {
      IncludesEmpty(Lower(SearchText(parts[0])));
      EmptyQueryKeepsAll(parts[1..]);
      assert parts == [parts[0]] + parts[1..];
    }
  }

  /** Filtering twice with the same query is filtering once. */
  lemma {:induction false} FilterIdempotent(parts: seq<Part>, query: string)
    ensures Filtered(Filtered(parts, query), query) == Filtered(parts, query)
  {
    if |parts| > 0 {
      FilterIdempotent(parts[1..], query);
      var rest := Filtered(parts[1..], query);
      var once := Filtered(parts, query);
      if Matches(parts[0], query) {
        assert once == [parts[0]] + rest;
        assert once[0] == parts[0] && once[1..] == rest;
        assert Filtered(once, query) == [parts[0]] + Filtered(rest, query);
      } else {
        assert once == rest;
      }
    }
  }

  /** Only the lower-cased query matters: "BOSCH" and "bosch" show the same
      parts. */
  lemma {:induction false} FilterIgnoresQueryCase(parts: seq<Part>, q1: string, q2: string)
    requires Lower(q1) == Lower(q2)
    ensures Filtered(parts, q1) == Filtered(parts, q2)
  {
    if |parts| > 0 {
      FilterIgnoresQueryCase(parts[1..], q1, q2);
    }
  }

  /** In particular the query may be replaced by its lower-case form. */
  lemma FilterLowerQuery(parts: seq<Part>, query: string)
    ensures Filtered(parts, query) == Filtered(parts, Lower(query))
  {
    LowerIdempotent(query);
    FilterIgnoresQueryCase(parts, query, Lower(query));
  }

  /** The gradient of the card at position `index`: always one of the
      colours, since `index % colors.length` is a valid index. */
  function CardGradient(index: nat): (g: string)
    ensures g in Colors
    ensures g == Colors[index % 15]
  {
    Colors[index % |Colors|]
  }

  /** The rendered cards: each shown part with its gradient. */
  function Cards(parts: seq<Part>, query: string): (cards: seq<(Part, string)>)
    ensures |cards| == |Filtered(parts, query)|
    ensures forall i :: 0 <= i < |cards| ==> cards[i].0 == Filtered(parts, query)[i] && cards[i].1 in Colors
    ensures forall i :: 0 <= i < |cards| ==> cards[i].1 == Colors[i % |Colors|]
  {
    var shown := Filtered(parts, query);
    seq(|shown|, i requires 0 <= i < |shown| => (shown[i], CardGradient(i)))
  }

  /** The card colours cycle through the palette from its first colour:
      cards fifteen places apart share a colour. */
  lemma CardColorsCycle(parts: seq<Part>, query: string)
    ensures var cards := Cards(parts, query);
            && (|cards| > 0 ==> cards[0].1 == Colors[0])
            && (forall i :: 0 <= i && i + |Colors| < |cards| ==> cards[i].1 == cards[i + |Colors|].1)
  {
    var cards := Cards(parts, query);
    forall i | 0 <= i && i + |Colors| < |cards|
      ensures cards[i].1 == cards[i + |Colors|].1
    {
      assert (i + |Colors|) % |Colors| == i % |Colors|;
    }
  }

  /** "No parts found" is rendered when nothing is shown. */
  predicate ShowsEmptyState(parts: seq<Part>, query: string)
  {
    |Filtered(parts, query)| == 0
  }

  /** The empty state appears exactly when no part matches the query. */
  lemma EmptyStateIffNoMatch(parts: seq<Part>, query: string)
    ensures ShowsEmptyState(parts, query) <==> forall x :: x in parts ==> !Matches(x, query)
  {
    if !ShowsEmptyState(parts, query) {
      assert Filtered(parts, query)[0] in Filtered(parts, query);
    }
  }
}
