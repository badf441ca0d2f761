/** The FAQ page: the category buttons ("All" followed by each category once,
    in order of first appearance), the category filter and the one-open-answer
    accordion. The question and answer texts are not modelled; the page's own
    list appears only as its column of categories. */
module Faq {
  import opened Wrappers
  import opened Seqs

  datatype Entry = Entry(question: string, answer: string, category: string)

  function CategoryColumn(faqs: seq<Entry>): (r: seq<string>)
    ensures |r| == |faqs|
    ensures forall i :: 0 <= i < |faqs| ==> r[i] == faqs[i].category
  {
    seq(|faqs|, i requires 0 <= i < |faqs| => faqs[i].category)
  }

  /** `['All', ...Array.from(new Set(faqs.map(f => f.category)))]`. */
  function Categories(faqs: seq<Entry>): (r: seq<string>)
    ensures |r| >= 1 && r[0] == "All"
  {
    ["All"] + Dedup(CategoryColumn(faqs))
  }

  /** After "All", every category of the list appears exactly once, and in
      the order in which the list first uses it. */
  lemma CategoriesSpec(faqs: seq<Entry>)
    ensures forall c :: c in Categories(faqs)[1..] <==> exists i :: 0 <= i < |faqs| && faqs[i].category == c
    ensures forall c :: c in Categories(faqs)[1..] <==> c in CategoryColumn(faqs)
    ensures NoDuplicates(Categories(faqs)[1..])
    ensures forall i, j :: 1 <= i < j < |Categories(faqs)| ==>
              FirstIndex(CategoryColumn(faqs), Categories(faqs)[i]) < FirstIndex(CategoryColumn(faqs), Categories(faqs)[j])
  {
    var column := CategoryColumn(faqs);
    DedupSpec(column);
    assert Categories(faqs)[1..] == Dedup(column);
    forall c ensures c in column <==> exists i :: 0 <= i < |faqs| && faqs[i].category == c {
      if c in column {
        var i :| 0 <= i < |column| && column[i] == c;
      }
    }
  }

  /** The category column of the page's sixteen questions. */
  const PageCategoryColumn: seq<string> := [
    "Registration", "Registration", "Registration", "Payment", "Payment",
    "Gameplay", "Gameplay", "Gameplay", "Prizes", "Prizes", "Prizes",
    "Rules", "Rules", "Rules", "Technical", "Technical"]

  lemma PageCategories()
    ensures ["All"] + Dedup(PageCategoryColumn) ==
            ["All", "Registration", "Payment", "Gameplay", "Prizes", "Rules", "Technical"]
  {
    var reg, pay, game, prize, rule, tech := "Registration", "Payment", "Gameplay", "Prizes", "Rules", "Technical";
    assert reg[1] == 'e' && pay[1] == 'a' && game[1] == 'a' && prize[1] == 'r' && rule[1] == 'u' && tech[1] == 'e';
    assert reg[0] == 'R' && pay[0] == 'P' && game[0] == 'G' && prize[0] == 'P' && rule[0] == 'R' && tech[0] == 'T';
    DedupOfRuns(reg, pay, game, prize, rule, tech);
  }

  /** The page's column shape: six distinct categories in runs of 3, 2, 3,
      3, 3 and 2. */
  lemma DedupOfRuns(a: string, b: string, c: string, d: string, e: string, f: string)
    requires a != b && a != c && a != d && a != e && a != f
    requires b != c && b != d && b != e && b != f
    requires c != d && c != e && c != f
    requires d != e && d != f && e != f
    ensures Dedup([a, a, a, b, b, c, c, c, d, d, d, e, e, e, f, f]) == [a, b, c, d, e, f]
  {
    ShortRepeats(a); ShortRepeats(b); ShortRepeats(c); ShortRepeats(d); ShortRepeats(e); ShortRepeats(f);
    assert [a, a, a, b, b, c, c, c, d, d, d, e, e, e, f, f] ==
           Repeat(a, 3) + (Repeat(b, 2) + (Repeat(c, 3) + (Repeat(d, 3) + (Repeat(e, 3) + Repeat(f, 2)))));
    DedupChain(a, b, c, d, e, f);
  }

  lemma DedupChain(a: string, b: string, c: string, d: string, e: string, f: string)
    requires a != b && a != c && a != d && a != e && a != f
    requires b != c && b != d && b != e && b != f
    requires c != d && c != e && c != f
    requires d != e && d != f && e != f
    ensures DedupFrom(Repeat(a, 3) + (Repeat(b, 2) + (Repeat(c, 3) + (Repeat(d, 3) + (Repeat(e, 3) + Repeat(f, 2))))), {})
            == [a, b, c, d, e, f]
  {
    var s0: set<string> := {};
    var s2 := s0 + {a} + {b};
    var s4 := s2 + {c} + {d};
    var s6 := s4 + {e} + {f};
    var r6 := Repeat(e, 3) + Repeat(f, 2);
    var r4 := Repeat(c, 3) + (Repeat(d, 3) + r6);
    assert Repeat(f, 2) == Repeat(f, 2) + [];
    Pair(e, 3, f, 2, [], s4, []);
    Pair(c, 3, d, 3, r6, s2, [e, f]);
    Pair(a, 3, b, 2, r4, s0, [c, d, e, f]);
  }

  /** Two runs of new, different elements in front of a de-duplicated tail. */
  lemma Pair(x: string, kx: nat, y: string, ky: nat, rest: seq<string>, seen: set<string>, tail: seq<string>)
    requires kx >= 1 && ky >= 1 && x != y && x !in seen && y !in seen
    requires DedupFrom(rest, seen + {x} + {y}) == tail
    ensures DedupFrom(Repeat(x, kx) + (Repeat(y, ky) + rest), seen) == [x, y] + tail
  {
    Step(y, ky, rest, seen + {x}, tail);
    Step(x, kx, Repeat(y, ky) + rest, seen, [y] + tail);
  }

  /** A run of a new element in front of a de-duplicated tail. */
  lemma Step(x: string, k: nat, rest: seq<string>, seen: set<string>, tail: seq<string>)
    requires k >= 1 && x !in seen && DedupFrom(rest, seen + {x}) == tail
    ensures DedupFrom(Repeat(x, k) + rest, seen) == [x] + tail
  {
    Run(x, k, rest, seen);
  }

  lemma ShortRepeats(x: string)
    ensures Repeat(x, 2) == [x, x] && Repeat(x, 3) == [x, x, x]
  {
  }

  function Repeat(x: string, k: nat): (r: seq<string>)
    ensures |r| == k && forall i :: 0 <= i < k ==> r[i] == x
  {
    seq(k, _ => x)
  }

  /** A run of a new element contributes it once; a run of a seen one
      contributes nothing. */
  lemma {:induction false} Run(x: string, k: nat, rest: seq<string>, seen: set<string>)
    requires k >= 1
    ensures x !in seen ==> DedupFrom(Repeat(x, k) + rest, seen) == [x] + DedupFrom(rest, seen + {x})
    ensures x in seen ==> DedupFrom(Repeat(x, k) + rest, seen) == DedupFrom(rest, seen)
    decreases k
  {
    var xs := Repeat(x, k) + rest;
    assert xs[0] == x;
    if k == 1 {
      assert xs[1..] == rest;
    } else {
      assert xs[1..] == Repeat(x, k - 1) + rest;
      Run(x, k - 1, rest, seen + {x});
      Run(x, k - 1, rest, seen);
      assert seen + {x} + {x} == seen + {x};
    }
  }

  predicate InCategory(selected: string, f: Entry) {
    f.category == selected
  }

  function FilteredFaqs(faqs: seq<Entry>, selected: string): (r: seq<Entry>)
    ensures selected == "All" ==> r == faqs
    ensures selected != "All" ==> forall f :: f in r <==> f in faqs && f.category == selected
  {
    if selected == "All" then faqs else Filter(faqs, f => InCategory(selected, f))
  }

  /** A selected category keeps its questions in the page's order. */
  lemma FilteredKeepsOrder(faqs: seq<Entry>, selected: string)
    ensures IsSubsequence(FilteredFaqs(faqs, selected), faqs)
  {
    if selected == "All" {
      IsSubsequenceReflexive(faqs);
    } else {
      FilterIsSubsequence(faqs, f => InCategory(selected, f));
    }
  }

  lemma {:induction false} IsSubsequenceReflexive<T>(s: seq<T>)
    ensures IsSubsequence(s, s)
    decreases |s|
  {
    if |s| > 0 {
      IsSubsequenceReflexive(s[1..]);
    }
  }

  /** A question appears on its own category's page as often as on the full
      list. */
  lemma {:induction false} CategoryPagesPartition(faqs: seq<Entry>, f: Entry)
    ensures multiset(FilteredFaqs(faqs, f.category))[f] == multiset(faqs)[f]
  {
    if f.category != "All" {
      FilterMultiplicity(faqs, g => InCategory(f.category, g));
    }
  }

  /** Clicking question `index` opens it unless it is the open one, which
      closes; at most one answer is open. */
  function Toggle(open: Option<nat>, index: nat): (r: Option<nat>)
    ensures r == Some(index) <==> open != Some(index)
    ensures r == None <==> open == Some(index)
  {
    if open == Some(index) then None else Some(index)
  }

  /** Two clicks on the same question leave every answer closed, except
      when that question was already open: the first click closes it and
      the second opens it again. */
  lemma ToggleTwice(open: Option<nat>, index: nat)
    ensures Toggle(Toggle(open, index), index) == if open == Some(index) then Some(index) else None
  {
  }

  datatype PageState = PageState(open: Option<nat>, selected: string)

  /** The open index counts positions in the filtered list and is kept when
      the category changes. */
  function SelectCategory(state: PageState, category: string): (r: PageState)
    ensures r.selected == category && r.open == state.open
  {
    state.(selected := category)
  }

  function OpenEntry(faqs: seq<Entry>, state: PageState): (r: Option<Entry>)
    ensures r.Some? ==> r.value in FilteredFaqs(faqs, state.selected)
    ensures r.Some? <==> state.open.Some? && state.open.value < |FilteredFaqs(faqs, state.selected)|
  {
    var shown := FilteredFaqs(faqs, state.selected);
    if state.open.Some? && state.open.value < |shown| then Some(shown[state.open.value]) else None
  }

  /** Switching category can leave a different question open: the position
      stays, the list under it changes. */
  lemma SwitchingCategoryMovesOpenAnswer()
    ensures var faqs := [Entry("q1", "a1", "Registration"), Entry("q2", "a2", "Payment")];
            var before := PageState(Some(0), "All");
            var after := SelectCategory(before, "Payment");
            OpenEntry(faqs, before) == Some(faqs[0]) && OpenEntry(faqs, after) == Some(faqs[1])
  {
    var faqs := [Entry("q1", "a1", "Registration"), Entry("q2", "a2", "Payment")];
    assert Filter(faqs, f => InCategory("Payment", f)) == [faqs[1]];
  }
}
