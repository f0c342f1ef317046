/** The section and bullet assembly of `generate_executive_summary`: five
    fixed section headings, each followed by one `- ` line per insight, with
    a blank line between sections. */
module Report {
  import opened Wrappers

  // ---------------------------------------------------------------------------
  // Lines

  predicate NoNewline(s: string) {
    forall i :: 0 <= i < |s| ==> s[i] != '\n'
  }

  /** Each line followed by a newline. */
  function Unlines(ls: seq<string>): string {
    if |ls| == 0 then "" else ls[0] + "\n" + Unlines(ls[1..])
  }

  lemma {:induction false} UnlinesAppend(a: seq<string>, b: seq<string>)
    ensures Unlines(a + b) == Unlines(a) + Unlines(b)
  {
    if |a| > 0 {
      assert (a + b)[0] == a[0];
      assert (a + b)[1..] == a[1..] + b;
      UnlinesAppend(a[1..], b);
      calc {
        Unlines(a + b);
        a[0] + "\n" + Unlines(a[1..] + b);
        a[0] + "\n" + (Unlines(a[1..]) + Unlines(b));
        (a[0] + "\n" + Unlines(a[1..])) + Unlines(b);
      }
    } else {
      assert a + b == b;
    }
  }

  function FirstNewline(s: string): (r: Option<nat>)
    ensures r.Some? ==> r.value < |s| && s[r.value] == '\n' && NoNewline(s[..r.value])
    ensures r.None? ==> NoNewline(s)
  {
    if |s| == 0 then None
    else if s[0] == '\n' then Some(0)
    else
      match FirstNewline(s[1..])
      case None => None
      case Some(i) =>
        assert s[..i + 1] == [s[0]] + s[1..][..i];
        Some(i + 1)
  }

  lemma {:induction false} FirstNewlineAt(s: string, k: nat)
    requires k < |s| && s[k] == '\n' && NoNewline(s[..k])
    ensures FirstNewline(s) == Some(k)
  {
    if k > 0 {
      assert s[0] == s[..k][0];
      assert s[1..][..k - 1] == s[..k][1..];
      FirstNewlineAt(s[1..], k - 1);
    }
  }

  /** Split text into lines at each newline; a final newline ends the last
      line rather than starting an empty one. */
  function Lines(s: string): seq<string>
    decreases |s|
  {
    if |s| == 0 then []
    else
      match FirstNewline(s)
      case None => [s]
      case Some(i) => [s[..i]] + Lines(s[i + 1..])
  }

  /** Splitting undoes joining when no line holds a newline of its own. */
  lemma {:induction false} LinesUnlines(ls: seq<string>)
    requires forall i :: 0 <= i < |ls| ==> NoNewline(ls[i])
    ensures Lines(Unlines(ls)) == ls
  {
    if |ls| > 0 {
      var s := Unlines(ls);
      var l := ls[0];
      assert s == l + "\n" + Unlines(ls[1..]);
      assert s[..|l|] == l;
      FirstNewlineAt(s, |l|);
      assert s[..|l|] == l;
      assert s[|l| + 1..] == Unlines(ls[1..]);
      LinesUnlines(ls[1..]);
    }
  }

  // ---------------------------------------------------------------------------
  // Sections

  /** `summary += f"- {insight}\n"` for each insight in turn. */
  function Bullets(items: seq<string>): string {
    if |items| == 0 then "" else "- " + items[0] + "\n" + Bullets(items[1..])
  }

  function BulletLines(items: seq<string>): (ls: seq<string>)
    ensures |ls| == |items| && forall i :: 0 <= i < |items| ==> ls[i] == "- " + items[i]
  {
    seq(|items|, i requires 0 <= i < |items| => "- " + items[i])
  }

  lemma {:induction false} BulletsAsLines(items: seq<string>)
    ensures Bullets(items) == Unlines(BulletLines(items))
  {
    if |items| > 0 {
      assert BulletLines(items)[1..] == BulletLines(items[1..]);
      BulletsAsLines(items[1..]);
    }
  }

  /** A heading and its bullets. */
  function Block(title: string, items: seq<string>): string {
    title + "\n" + Bullets(items)
  }

  function BlockLines(title: string, items: seq<string>): seq<string> {
    [title] + BulletLines(items)
  }

  /** The blocks in order, with an empty line before every block but the
      first. */
  function Sections(titles: seq<string>, lists: seq<seq<string>>): string
    requires |titles| == |lists|
  {
    if |titles| == 0 then ""
    else
      var n := |titles| - 1;
      Sections(titles[..n], lists[..n]) + (if n > 0 then "\n" else "") + Block(titles[n], lists[n])
  }

  function SectionLines(titles: seq<string>, lists: seq<seq<string>>): seq<string>
    requires |titles| == |lists|
  {
    if |titles| == 0 then []
    else
      var n := |titles| - 1;
      SectionLines(titles[..n], lists[..n]) + (if n > 0 then [""] else []) + BlockLines(titles[n], lists[n])
  }

  lemma {:induction false} SectionsAsLines(titles: seq<string>, lists: seq<seq<string>>)
    requires |titles| == |lists|
    ensures Sections(titles, lists) == Unlines(SectionLines(titles, lists))
  {
    if |titles| > 0 {
      var n := |titles| - 1;
      SectionsAsLines(titles[..n], lists[..n]);
      var sep: seq<string> := if n > 0 then [""] else [];
      var bl := BlockLines(titles[n], lists[n]);
      UnlinesAppend(SectionLines(titles[..n], lists[..n]) + sep, bl);
      UnlinesAppend(SectionLines(titles[..n], lists[..n]), sep);
      assert Unlines(sep) == (if n > 0 then "\n" else "") by {
        if n > 0 {
          assert sep[1..] == [];
        }
      }
      UnlinesAppend([titles[n]], BulletLines(lists[n]));
      assert [titles[n]][1..] == [];
      BulletsAsLines(lists[n]);
    }
  }

  // ---------------------------------------------------------------------------
  // Reading the sections back

  predicate IsTitle(l: string) {
    |l| >= 4 && l[..4] == "### "
  }

  predicate IsBullet(l: string) {
    |l| >= 2 && l[..2] == "- "
  }

  /** A reader of the report body: a heading line opens a new section, a
      bullet line adds its text to the current section, other lines are
      skipped. */
  function Parse(lines: seq<string>): seq<seq<string>> {
    if |lines| == 0 then []
    else
      var n := |lines| - 1;
      var p := Parse(lines[..n]);
      var l := lines[n];
      if IsTitle(l) then p + [[]]
      else if IsBullet(l) && |p| > 0 then p[..|p| - 1] + [p[|p| - 1] + [l[2..]]]
      else p
  }

  lemma {:induction false} ParseBlock(before: seq<string>, title: string, items: seq<string>)
    requires IsTitle(title)
    ensures Parse(before + BlockLines(title, items)) == Parse(before) + [items]
    decreases |items|
  {
    var lines := before + BlockLines(title, items);
    if |items| == 0 {
      assert lines == before + [title];
      assert lines[..|lines| - 1] == before;
    } else {
      var k := |items| - 1;
      var x := items[k];
      assert BulletLines(items) == BulletLines(items[..k]) + ["- " + x];
      assert lines == before + BlockLines(title, items[..k]) + ["- " + x];
      assert lines[..|lines| - 1] == before + BlockLines(title, items[..k]);
      ParseBlock(before, title, items[..k]);
      var b := "- " + x;
      assert IsBullet(b) && !IsTitle(b) by {
        assert b[..2] == "- ";
        if |b| >= 4 {
          assert b[..4][0] == '-';
        }
      }
      assert ("- " + x)[2..] == x;
      assert items[..k] + [x] == items;
    }
  }

  /** Reading the sections back yields the insight lists, each under its own
      heading and in its own order. */
  lemma {:induction false} ParseSectionLines(titles: seq<string>, lists: seq<seq<string>>)
    requires |titles| == |lists|
    requires forall i :: 0 <= i < |titles| ==> IsTitle(titles[i])
    ensures Parse(SectionLines(titles, lists)) == lists
  {
    if |titles| > 0 {
      var n := |titles| - 1;
      ParseSectionLines(titles[..n], lists[..n]);
      var before := SectionLines(titles[..n], lists[..n]) + (if n > 0 then [""] else []);
      if n > 0 {
        assert before[..|before| - 1] == SectionLines(titles[..n], lists[..n]);
      }
      assert Parse(before) == lists[..n];
      ParseBlock(before, titles[n], lists[n]);
      assert lists[..n] + [lists[n]] == lists;
    }
  }

  /** The text of the sections reads back as the insight lists, provided no
      heading or insight holds a newline. */
  lemma SectionsRoundTrip(titles: seq<string>, lists: seq<seq<string>>)
    requires |titles| == |lists|
    requires forall i :: 0 <= i < |titles| ==> IsTitle(titles[i]) && NoNewline(titles[i])
    requires forall i, j :: 0 <= i < |lists| && 0 <= j < |lists[i]| ==> NoNewline(lists[i][j])
    ensures Parse(Lines(Sections(titles, lists))) == lists
  {
    SectionsAsLines(titles, lists);
    SectionLinesNoNewline(titles, lists);
    LinesUnlines(SectionLines(titles, lists));
    ParseSectionLines(titles, lists);
  }

  lemma {:induction false} SectionLinesNoNewline(titles: seq<string>, lists: seq<seq<string>>)
    requires |titles| == |lists|
    requires forall i :: 0 <= i < |titles| ==> NoNewline(titles[i])
    requires forall i, j :: 0 <= i < |lists| && 0 <= j < |lists[i]| ==> NoNewline(lists[i][j])
    ensures forall k :: 0 <= k < |SectionLines(titles, lists)| ==> NoNewline(SectionLines(titles, lists)[k])
  {
    if |titles| > 0 {
      var n := |titles| - 1;
      SectionLinesNoNewline(titles[..n], lists[..n]);
      var bl := BulletLines(lists[n]);
      assert forall k :: 0 <= k < |bl| ==> NoNewline(bl[k]) by {
        forall k | 0 <= k < |bl| ensures NoNewline(bl[k]) {
          assert NoNewline(lists[n][k]);
          assert bl[k] == "- " + lists[n][k];
        }
      }
    }
  }

  // ---------------------------------------------------------------------------
  // The report

  /** A level-three Markdown heading. */
  function Heading(name: string): string {
    "### " + name
  }

  lemma HeadingIsTitle(name: string)
    requires NoNewline(name)
    ensures IsTitle(Heading(name)) && NoNewline(Heading(name))
  {
    assert Heading(name)[..4] == "### ";
  }

  const Titles: seq<string> := [
    Heading("1. Player Archetype Evolution"),
    Heading("2. Generational Trends & Market Shifts"),
    Heading("3. Performance Pattern Analysis"),
    Heading("4. Roster Construction Intelligence"),
    Heading("5. Market Value & Opportunity Analysis")]

  /** The report as the program concatenates it: `overview` is the text
      before the first heading and `closing` the methodology text after the
      last section. It is the overview, the five sections in fixed order,
      then the closing text. */
  function GenerateExecutiveSummary(
    overview: string, archetype: seq<string>, generational: seq<string>, outlier: seq<string>,
    team: seq<string>, market: seq<string>, closing: string): (report: string)
    ensures report == overview + Sections(Titles, [archetype, generational, outlier, team, market]) + closing
  {
    FiveSections(Titles[0], Titles[1], Titles[2], Titles[3], Titles[4],
      archetype, generational, outlier, team, market);
    assert [Titles[0], Titles[1], Titles[2], Titles[3], Titles[4]] == Titles;
    Regroup(overview, Titles[0], Bullets(archetype), Titles[1], Bullets(generational), Titles[2], Bullets(outlier),
      Titles[3], Bullets(team), Titles[4], Bullets(market), closing);
    overview + Titles[0] + "\n" + Bullets(archetype)
    + "\n" + Titles[1] + "\n" + Bullets(generational)
    + "\n" + Titles[2] + "\n" + Bullets(outlier)
    + "\n" + Titles[3] + "\n" + Bullets(team)
    + "\n" + Titles[4] + "\n" + Bullets(market)
    + closing
  }

  lemma Regroup(o: string, t0: string, b0: string, t1: string, b1: string, t2: string, b2: string,
    t3: string, b3: string, t4: string, b4: string, c: string)
    ensures o + t0 + "\n" + b0 + "\n" + t1 + "\n" + b1 + "\n" + t2 + "\n" + b2 + "\n" + t3 + "\n" + b3 + "\n" + t4 + "\n" + b4 + c
      == o + ((((t0 + "\n" + b0) + "\n" + (t1 + "\n" + b1)) + "\n" + (t2 + "\n" + b2)) + "\n" + (t3 + "\n" + b3)
        + "\n" + (t4 + "\n" + b4)) + c
  {
  }

  lemma FiveSections(t0: string, t1: string, t2: string, t3: string, t4: string,
    l0: seq<string>, l1: seq<string>, l2: seq<string>, l3: seq<string>, l4: seq<string>)
    ensures Sections([t0, t1, t2, t3, t4], [l0, l1, l2, l3, l4])
      == (((Block(t0, l0) + "\n" + Block(t1, l1)) + "\n" + Block(t2, l2)) + "\n" + Block(t3, l3))
        + "\n" + Block(t4, l4)
  {
    var s1 := Block(t0, l0);
    var s2 := s1 + "\n" + Block(t1, l1);
    var s3 := s2 + "\n" + Block(t2, l2);
    var s4 := s3 + "\n" + Block(t3, l3);
    SectionsSnoc([], [], t0, l0);
    assert [] + [t0] == [t0] && [] + [l0] == [l0];
    assert Sections([t0], [l0]) == s1;
    SectionsSnoc([t0], [l0], t1, l1);
    assert [t0] + [t1] == [t0, t1] && [l0] + [l1] == [l0, l1];
    assert Sections([t0, t1], [l0, l1]) == s2;
    SectionsSnoc([t0, t1], [l0, l1], t2, l2);
    assert [t0, t1] + [t2] == [t0, t1, t2] && [l0, l1] + [l2] == [l0, l1, l2];
    assert Sections([t0, t1, t2], [l0, l1, l2]) == s3;
    SectionsSnoc([t0, t1, t2], [l0, l1, l2], t3, l3);
    assert [t0, t1, t2] + [t3] == [t0, t1, t2, t3] && [l0, l1, l2] + [l3] == [l0, l1, l2, l3];
    assert Sections([t0, t1, t2, t3], [l0, l1, l2, l3]) == s4;
    SectionsSnoc([t0, t1, t2, t3], [l0, l1, l2, l3], t4, l4);
    assert [t0, t1, t2, t3] + [t4] == [t0, t1, t2, t3, t4] && [l0, l1, l2, l3] + [l4] == [l0, l1, l2, l3, l4];
  }

  lemma SectionsSnoc(titles: seq<string>, lists: seq<seq<string>>, t: string, l: seq<string>)
    requires |titles| == |lists|
    ensures Sections(titles + [t], lists + [l]) == Sections(titles, lists) + (if |titles| > 0 then "\n" else "") + Block(t, l)
  {
    assert (titles + [t])[..|titles|] == titles && (lists + [l])[..|lists|] == lists;
  }

  /** Reading the report's sections back recovers the five insight lists,
      provided no insight holds a newline. */
  lemma SummarySectionsRoundTrip(
    archetype: seq<string>, generational: seq<string>, outlier: seq<string>,
    team: seq<string>, market: seq<string>)
    requires forall j :: 0 <= j < |archetype| ==> NoNewline(archetype[j])
    requires forall j :: 0 <= j < |generational| ==> NoNewline(generational[j])
    requires forall j :: 0 <= j < |outlier| ==> NoNewline(outlier[j])
    requires forall j :: 0 <= j < |team| ==> NoNewline(team[j])
    requires forall j :: 0 <= j < |market| ==> NoNewline(market[j])
    ensures Parse(Lines(Sections(Titles, [archetype, generational, outlier, team, market])))
      == [archetype, generational, outlier, team, market]
  {
    var lists := [archetype, generational, outlier, team, market];
    assert forall i :: 0 <= i < |Titles| ==> IsTitle(Titles[i]) && NoNewline(Titles[i]) by {
      forall i | 0 <= i < |Titles| ensures IsTitle(Titles[i]) && NoNewline(Titles[i]) {
        if i == 0 { HeadingIsTitle("1. Player Archetype Evolution"); }
        else if i == 1 { HeadingIsTitle("2. Generational Trends & Market Shifts"); }
        else if i == 2 { HeadingIsTitle("3. Performance Pattern Analysis"); }
        else if i == 3 { HeadingIsTitle("4. Roster Construction Intelligence"); }
        else { HeadingIsTitle("5. Market Value & Opportunity Analysis"); }
      }
    }
    SectionsRoundTrip(Titles, lists);
  }
}
