/** Glossary matching of a transcript text (services/governance.py, _glossary_entities). */
module Glossary {
  import opened Sequences

  datatype Entry = Entry(id: string, name: string, aliases: seq<string>, enabled: bool)
  datatype Match = Match(length: nat, start: nat, id: string, name: string) {
    function End(): nat {
      start + length
    }
  }

  /** Normalization of texts and aliases (NFKC and case folding), and of surrounding blanks, is a parameter. */
  datatype Normalizer = Normalizer(text: string -> string, strip: string -> string)

  predicate OccursAt(text: string, needle: string, i: nat) {
    i + |needle| <= |text| && text[i..i + |needle|] == needle
  }

  /** The first occurrence of the needle at position i or later. */
  function FindFrom(text: string, needle: string, i: nat): (r: Option<nat>)
    requires i <= |text|
    ensures r.Some? ==> r.value <= |text| && OccursAt(text, needle, r.value)
    ensures r.Some? ==> forall j | i <= j < r.value :: !OccursAt(text, needle, j)
    ensures r.None? ==> forall j | i <= j <= |text| :: !OccursAt(text, needle, j)
    decreases |text| - i
  {
    if OccursAt(text, needle, i) then Some(i) else if i == |text| then None else FindFrom(text, needle, i + 1)
  }

  function Needle(nz: Normalizer, alias: string): string {
    nz.strip(nz.text(alias))
  }

  function Names(e: Entry): seq<string> {
    [e.name] + e.aliases
  }

  /** The matches of one entry for its first n names. */
  function EntryMatches(nz: Normalizer, text: string, e: Entry, n: nat): seq<Match>
    requires n <= |Names(e)|
  {
    if n == 0 then []
    else
      var front, needle := EntryMatches(nz, text, e, n - 1), Needle(nz, Names(e)[n - 1]);
      var found := FindFrom(text, needle, 0);
      if needle == "" || found.None? then front else front + [Match(|needle|, found.value, e.id, e.name)]
  }

  function AllMatches(nz: Normalizer, text: string, glossary: seq<Entry>): seq<Match> {
    if glossary == [] then []
    else
      var front, e := AllMatches(nz, text, glossary[..|glossary| - 1]), glossary[|glossary| - 1];
      if e.enabled then front + EntryMatches(nz, text, e, |Names(e)|) else front
  }

  /** Longest first, then leftmost, then by entry id. */
  predicate Ahead(a: Match, b: Match) {
    a.length > b.length || (a.length == b.length && (a.start < b.start || (a.start == b.start && TextLess(a.id, b.id))))
  }

  function InsertMatch(s: seq<Match>, m: Match): (r: seq<Match>)
    ensures forall x :: x in r <==> x in s || x == m
  {
    if s == [] || !Ahead(m, s[|s| - 1]) then s + [m]
    else
      assert s == s[..|s| - 1] + [s[|s| - 1]];
      InsertMatch(s[..|s| - 1], m) + [s[|s| - 1]]
  }

  function SortMatches(s: seq<Match>): (r: seq<Match>)
    ensures forall x :: x in r <==> x in s
  {
    if s == [] then []
    else
      assert s == s[..|s| - 1] + [s[|s| - 1]];
      InsertMatch(SortMatches(s[..|s| - 1]), s[|s| - 1])
  }

  /** No match is ahead of an earlier one. */
  predicate Ordered(s: seq<Match>) {
    forall i, j | 0 <= i < j < |s| :: !Ahead(s[j], s[i])
  }

  lemma NotAheadTransitive(a: Match, b: Match, c: Match)
    requires !Ahead(b, a) && !Ahead(c, b)
    ensures !Ahead(c, a)
  {
    TextLessTotal(a.id, b.id);
    TextLessTotal(b.id, c.id);
    if TextLess(c.id, a.id) && TextLess(a.id, b.id) {
      TextLessTransitive(c.id, a.id, b.id);
    }
  }

  lemma {:induction false} InsertKeepsOrder(s: seq<Match>, m: Match)
    requires Ordered(s)
    ensures Ordered(InsertMatch(s, m))
  {
    if s != [] {
      var front, last := s[..|s| - 1], s[|s| - 1];
      assert s == front + [last];
      assert Ahead(m, last) ==> !Ahead(last, m) by {
        TextLessTotal(m.id, last.id);
      }
      if Ahead(m, last) {
        InsertKeepsOrder(front, m);
        forall x | x in InsertMatch(front, m) ensures !Ahead(last, x) {
          if x in front {
            var k :| 0 <= k < |front| && front[k] == x;
            assert !Ahead(s[|front|], s[k]);
          }
        }
      } else {
        forall k | 0 <= k < |front| ensures !Ahead(m, s[k]) {
          NotAheadTransitive(s[k], last, m);
        }
      }
    }
  }

  lemma {:induction false} SortOrders(s: seq<Match>)
    ensures Ordered(SortMatches(s))
  {
    if s != [] {
      SortOrders(s[..|s| - 1]);
      InsertKeepsOrder(SortMatches(s[..|s| - 1]), s[|s| - 1]);
    }
  }

  predicate Overlap(a: Match, b: Match) {
    a.start < b.End() && a.End() > b.start
  }

  predicate Blocked(selected: seq<Match>, m: Match) {
    exists s :: s in selected && Overlap(m, s)
  }

  /** Each match is taken unless it overlaps one already taken. */
  function Greedy(matches: seq<Match>): (r: seq<Match>)
    ensures forall m | m in r :: m in matches
  {
    if matches == [] then []
    else
      var front, m := Greedy(matches[..|matches| - 1]), matches[|matches| - 1];
      assert matches == matches[..|matches| - 1] + [m];
      if Blocked(front, m) then front else front + [m]
  }

  /** Text order; starts of disjoint matches differ, so the entry id never decides. */
  function InsertByStart(s: seq<Match>, m: Match): (r: seq<Match>)
    ensures forall x :: x in r <==> x in s || x == m
    ensures |r| == |s| + 1
  {
    if s == [] || !(m.start < s[|s| - 1].start || (m.start == s[|s| - 1].start && TextLess(m.id, s[|s| - 1].id)))
    then s + [m]
    else
      assert s == s[..|s| - 1] + [s[|s| - 1]];
      InsertByStart(s[..|s| - 1], m) + [s[|s| - 1]]
  }

  function InTextOrder(s: seq<Match>): (r: seq<Match>)
    ensures forall x :: x in r <==> x in s
    ensures |r| == |s|
  {
    if s == [] then []
    else
      assert s == s[..|s| - 1] + [s[|s| - 1]];
      InsertByStart(InTextOrder(s[..|s| - 1]), s[|s| - 1])
  }

  function Selected(nz: Normalizer, text: string, glossary: seq<Entry>): seq<Match> {
    InTextOrder(Greedy(SortMatches(AllMatches(nz, nz.text(text), glossary))))
  }

  method GlossaryEntities(nz: Normalizer, text: string, glossary: seq<Entry>)
    returns (ids: seq<string>, names: seq<string>)
    ensures var selected := Selected(nz, text, glossary);
            ids == Dedupe(Mapped(selected, (m: Match) => m.id)) &&
                names == Dedupe(Mapped(selected, (m: Match) => m.name))
  {
    var normalized := nz.text(text);
    var matches := [];
    for i := 0 to |glossary|
      invariant matches == AllMatches(nz, normalized, glossary[..i])
    {
      var entry := glossary[i];
      if entry.enabled {
        ghost var front := matches;
        for k := 0 to |Names(entry)|
          invariant matches == front + EntryMatches(nz, normalized, entry, k)
        {
          var needle := Needle(nz, Names(entry)[k]);
          var found := FindFrom(normalized, needle, 0);
          if needle != "" && found.Some? {
            matches := matches + [Match(|needle|, found.value, entry.id, entry.name)];
          }
        }
      }
      assert glossary[..i + 1][..i] == glossary[..i];
    }
    assert glossary[..|glossary|] == glossary;
    matches := SortMatches(matches);
    var chosen := [];
    for i := 0 to |matches|
      invariant chosen == Greedy(matches[..i])
    {
      assert matches[..i + 1][..i] == matches[..i];
      if !Blocked(chosen, matches[i]) {
        chosen := chosen + [matches[i]];
      }
    }
    assert matches[..|matches|] == matches;
    chosen := InTextOrder(chosen);
    ids := Dedupe(Mapped(chosen, (m: Match) => m.id));
    names := Dedupe(Mapped(chosen, (m: Match) => m.name));
  }

  /* ---------- laws ---------- */

  /** m is the first occurrence in the text of a name of an enabled glossary entry, its canonical name or an alias. */
  ghost predicate Found(nz: Normalizer, text: string, glossary: seq<Entry>, m: Match) {
    exists e, name ::
      e in glossary && e.enabled && (name == e.name || name in e.aliases) && FoundFor(nz, text, e, name, m)
  }

  ghost predicate FoundFor(nz: Normalizer, text: string, e: Entry, name: string, m: Match) {
    FirstOccurrence(text, nz.strip(nz.text(name)), m.length, m.start) && m.id == e.id && m.name == e.name
  }

  /** The needle is not empty and of this length, and this is where it occurs first. */
  predicate FirstOccurrence(text: string, needle: string, length: nat, start: nat) {
    0 < length == |needle| && OccursAt(text, needle, start) && forall i | 0 <= i < start :: !OccursAt(text, needle, i)
  }

  lemma FindIsFirst(text: string, needle: string, m: Match)
    requires needle != ""
    ensures FirstOccurrence(text, needle, m.length, m.start) <==>
            FindFrom(text, needle, 0) == Some(m.start) && m.length == |needle|
  {
  }

  lemma {:induction false} EntryMatchesFound(nz: Normalizer, text: string, e: Entry, n: nat, m: Match)
    requires n <= |Names(e)|
    ensures m in EntryMatches(nz, text, e, n) <==> exists k :: 0 <= k < n && FoundFor(nz, text, e, Names(e)[k], m)
  {
    if n > 0 {
      EntryMatchesFound(nz, text, e, n - 1, m);
      var needle := Needle(nz, Names(e)[n - 1]);
      if needle != "" {
        FindIsFirst(text, needle, m);
      }
    }
  }

  lemma {:induction false} AllMatchesFound(nz: Normalizer, text: string, glossary: seq<Entry>, m: Match)
    ensures m in AllMatches(nz, text, glossary) <==> Found(nz, text, glossary, m)
  {
    if glossary != [] {
      var front, e := glossary[..|glossary| - 1], glossary[|glossary| - 1];
      assert glossary == front + [e];
      AllMatchesFound(nz, text, front, m);
      EntryMatchesFound(nz, text, e, |Names(e)|, m);
      if e.enabled && m in EntryMatches(nz, text, e, |Names(e)|) {
        var k :| 0 <= k < |Names(e)| && FoundFor(nz, text, e, Names(e)[k], m);
        assert Names(e)[k] == e.name || Names(e)[k] in e.aliases;
      }
      forall name | (name == e.name || name in e.aliases) && FoundFor(nz, text, e, name, m)
        ensures exists k :: 0 <= k < |Names(e)| && FoundFor(nz, text, e, Names(e)[k], m)
      {
        assert name in Names(e);
      }
      if Found(nz, text, glossary, m) {
        var f, name :| f in glossary && f.enabled && (name == f.name || name in f.aliases) &&
                       FoundFor(nz, text, f, name, m);
        if f in front {
          assert Found(nz, text, front, m);
        } else {
          assert f == e && m in EntryMatches(nz, text, e, |Names(e)|);
        }
      }
    }
  }

  predicate PairwiseDisjoint(s: seq<Match>) {
    forall i, j | 0 <= i < j < |s| :: !Overlap(s[i], s[j])
  }

  lemma {:induction false} GreedyDisjoint(matches: seq<Match>)
    ensures PairwiseDisjoint(Greedy(matches))
  {
    if matches != [] {
      var front, m := Greedy(matches[..|matches| - 1]), matches[|matches| - 1];
      GreedyDisjoint(matches[..|matches| - 1]);
      if !Blocked(front, m) {
        forall i | 0 <= i < |front| ensures !Overlap(front[i], m) {
          assert front[i] in front;
        }
      }
    }
  }

  /** A chosen match overlaps m and goes before it: longer, or as long and further left, or there with no greater id. */
  ghost predicate Beaten(chosen: seq<Match>, m: Match) {
    exists s :: s in chosen && Shared(s, m) && GoesBefore(s, m)
  }

  /** Some position of the text belongs to both matches. */
  ghost predicate Shared(s: Match, m: Match) {
    exists i :: Inside(s, i) && Inside(m, i)
  }

  predicate Inside(m: Match, i: int) {
    m.start <= i < m.start + m.length
  }

  lemma SharedIff(s: Match, m: Match)
    requires s.length > 0 && m.length > 0
    ensures Shared(s, m) <==> Overlap(m, s)
  {
    if Overlap(m, s) {
      var i := if s.start <= m.start then m.start else s.start;
      assert Inside(s, i) && Inside(m, i);
    }
  }

  predicate GoesBefore(s: Match, m: Match) {
    s.length > m.length || (s.length == m.length &&
    (s.start < m.start || (s.start == m.start && !TextLess(m.id, s.id))))
  }

  /** Greedy choice in this order is maximal: each rejected match meets a chosen one that goes before it. */
  lemma {:induction false} GreedyMaximal(matches: seq<Match>)
    requires Ordered(matches) && forall m | m in matches :: m.length > 0
    ensures forall m | m in matches && m !in Greedy(matches) :: Beaten(Greedy(matches), m)
  {
    if matches != [] {
      var rest, m := matches[..|matches| - 1], matches[|matches| - 1];
      GreedyMaximal(rest);
      assert matches == rest + [m];
      var front := Greedy(rest);
      if Blocked(front, m) {
        var s :| s in front && Overlap(m, s);
        var k :| 0 <= k < |rest| && rest[k] == s;
        assert !Ahead(matches[|rest|], matches[k]);
        SharedIff(s, m);
      } else {
        forall x | x in rest && x !in front ensures Beaten(front + [m], x) {
          var s :| s in front && Shared(s, x) && GoesBefore(s, x);
          assert s in front + [m];
        }
      }
    }
  }

  predicate Separate(s: seq<Match>) {
    forall i, j | 0 <= i < j < |s| :: s[i].End() <= s[j].start
  }

  lemma {:induction false} InsertByStartSeparate(s: seq<Match>, m: Match)
    requires Separate(s) && m.length > 0 && forall x | x in s :: x.length > 0 && !Overlap(x, m)
    ensures Separate(InsertByStart(s, m))
  {
    if s != [] {
      var front, last := s[..|s| - 1], s[|s| - 1];
      assert s == front + [last];
      SeparateAppends(front, last);
      if m.start < last.start {
        InsertByStartSeparate(front, m);
        SeparateAppends(InsertByStart(front, m), last);
      } else {
        SeparateAppends(s, m);
      }
    }
  }

  ghost predicate EndsBefore(s: seq<Match>, limit: nat) {
    forall x | x in s :: x.End() <= limit
  }

  lemma SeparateAppends(s: seq<Match>, m: Match)
    ensures Separate(s + [m]) <==> Separate(s) && EndsBefore(s, m.start)
  {
    var all := s + [m];
    if Separate(all) {
      forall x | x in s ensures x.End() <= m.start {
        var k :| 0 <= k < |s| && s[k] == x;
        assert all[k].End() <= all[|s|].start;
      }
      forall i, j | 0 <= i < j < |s| ensures s[i].End() <= s[j].start {
        assert all[i].End() <= all[j].start;
      }
    }
  }

  lemma {:induction false} TextOrderSeparate(s: seq<Match>)
    requires PairwiseDisjoint(s) && forall m | m in s :: m.length > 0
    ensures Separate(InTextOrder(s))
  {
    if s != [] {
      var front, m := s[..|s| - 1], s[|s| - 1];
      assert s == front + [m];
      TextOrderSeparate(front);
      forall x | x in InTextOrder(front) ensures x.length > 0 && !Overlap(x, m) {
        var k :| 0 <= k < |front| && front[k] == x;
        assert !Overlap(s[k], s[|front|]);
      }
      InsertByStartSeparate(InTextOrder(front), m);
    }
  }

  function TotalLength(s: seq<Match>): nat {
    if s == [] then 0 else TotalLength(s[..|s| - 1]) + s[|s| - 1].length
  }

  lemma {:induction false} SeparateFits(s: seq<Match>, limit: nat)
    requires Separate(s) && forall m | m in s :: m.End() <= limit
    ensures TotalLength(s) <= limit
  {
    if s != [] {
      var front, last := s[..|s| - 1], s[|s| - 1];
      assert s == front + [last];
      forall m | m in front ensures m.End() <= last.start {
        var k :| 0 <= k < |front| && front[k] == m;
        assert s[k].End() <= s[|front|].start;
      }
      SeparateFits(front, last.start);
      assert last in s;
      assert TotalLength(s) == TotalLength(front) + last.length;
    }
  }

  /**
    For any text and glossary: the selected matches are first occurrences of enabled names, in text order and disjoint;
    every first occurrence of an enabled name that was not selected overlaps a selected one that goes before it; and
    together the selected ones are no longer than the text.
   */
  lemma {:induction false} SelectionIsGreedyMaximal(nz: Normalizer, text: string, glossary: seq<Entry>)
    ensures var selected, normalized := Selected(nz, text, glossary), nz.text(text);
            && (forall m | m in selected :: Found(nz, normalized, glossary, m))
            && Separate(selected)
            && (forall m | Found(nz, normalized, glossary, m) && m !in selected :: Beaten(selected, m))
            && TotalLength(selected) <= |normalized|
  {
    var normalized := nz.text(text);
    var all := AllMatches(nz, normalized, glossary);
    var sorted := SortMatches(all);
    var chosen := Greedy(sorted);
    var selected := InTextOrder(chosen);
    SortOrders(all);
    GreedyDisjoint(sorted);
    forall m | m in all ensures m.length > 0 {
      AllMatchesFound(nz, normalized, glossary, m);
    }
    GreedyMaximal(sorted);
    forall m | m in chosen ensures Found(nz, normalized, glossary, m) && m.length > 0 && m.End() <= |normalized| {
      AllMatchesFound(nz, normalized, glossary, m);
    }
    TextOrderSeparate(chosen);
    SeparateFits(selected, |normalized|);
    forall m | Found(nz, normalized, glossary, m) && m !in selected ensures Beaten(selected, m) {
      AllMatchesFound(nz, normalized, glossary, m);
      var s :| s in chosen && Shared(s, m) && GoesBefore(s, m);
      assert s in selected;
    }
  }
}
