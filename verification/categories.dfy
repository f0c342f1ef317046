/** `add_performance_categories`: bin the PPG of the qualifying rows, then
    left-merge the tiers back onto the full table on (PLAYER_NAME, SEASON_ID). */
module Categories {
  import opened Wrappers
  import opened Records
  import opened Binning

  /** Rows with at least 15 minutes per game get a tier. */
  const MinutesCutoff: real := 15.0

  predicate Qualifies(m: MetricRow) {
    m.pg.mpg >= MinutesCutoff
  }

  predicate AnyQualifies(rows: seq<MetricRow>) {
    exists i :: 0 <= i < |rows| && Qualifies(rows[i])
  }

  /** The tier a row is meant to receive: its PPG bin when it qualifies. */
  function TierOf(m: MetricRow): (t: Option<Tier>)
    ensures t.Some? ==> Qualifies(m) && 0.0 < m.pg.ppg <= 50.0
    ensures Qualifies(m) ==> t == ScoringTier(m.pg.ppg)
    ensures !Qualifies(m) ==> t == None
  {
    if Qualifies(m) then ScoringTier(m.pg.ppg) else None
  }

  /** One row of `active_seasons[['PLAYER_NAME', 'SEASON_ID', 'SCORING_TIER']]`. */
  datatype TierEntry = TierEntry(key: Key, tier: Option<Tier>)

  function EntryOf(m: MetricRow): seq<TierEntry> {
    if Qualifies(m) then [TierEntry(KeyOf(m), ScoringTier(m.pg.ppg))] else []
  }

  /** The qualifying rows, in order, with their binned PPG: an entry for every
      qualifying row and nothing else. */
  function ActiveTiers(rows: seq<MetricRow>): (entries: seq<TierEntry>)
    ensures |entries| <= |rows|
    ensures forall e :: e in entries ==>
      exists m :: m in rows && Qualifies(m) && e == TierEntry(KeyOf(m), ScoringTier(m.pg.ppg))
    ensures forall m :: m in rows && Qualifies(m) ==> TierEntry(KeyOf(m), ScoringTier(m.pg.ppg)) in entries
  {
    if |rows| == 0 then []
    else
      assert forall m :: m in rows[1..] ==> m in rows;
      assert forall m :: m in rows ==> m == rows[0] || m in rows[1..];
      EntryOf(rows[0]) + ActiveTiers(rows[1..])
  }

  /** The right-hand rows that carry key `k`, in order. */
  function Matches(k: Key, entries: seq<TierEntry>): (ms: seq<TierEntry>)
    ensures |ms| <= |entries|
    ensures forall e :: e in ms <==> e in entries && e.key == k
  {
    if |entries| == 0 then []
    else
      assert forall e :: e in entries ==> e == entries[0] || e in entries[1..];
      (if entries[0].key == k then [entries[0]] else []) + Matches(k, entries[1..])
  }

  /** `o`'s tier is what the merge attaches: the tier of an entry with its
      key, or NaN when no entry has its key. */
  ghost predicate MergedTier(o: TieredRow, entries: seq<TierEntry>) {
    if exists e :: e in entries && e.key == KeyOf(o.m)
    then exists e :: e in entries && e.key == KeyOf(o.m) && o.tier == e.tier
    else o.tier == None
  }

  /** A left-merge of one row: one output row per matching right-hand row, or
      the row with a NaN tier when nothing matches. */
  function JoinRow(m: MetricRow, entries: seq<TierEntry>): (out: seq<TieredRow>)
    ensures |out| >= 1
    ensures forall o :: o in out ==> o.m == m
    ensures |out| == if |Matches(KeyOf(m), entries)| == 0 then 1 else |Matches(KeyOf(m), entries)|
    ensures |Matches(KeyOf(m), entries)| == 0 ==> out == [TieredRow(m, None)]
    ensures forall e :: e in entries && e.key == KeyOf(m) ==> TieredRow(m, e.tier) in out
    ensures forall o :: o in out ==> MergedTier(o, entries)
    ensures |Matches(KeyOf(m), entries)| > 0 ==>
      forall j :: 0 <= j < |out| ==> out[j] == TieredRow(m, Matches(KeyOf(m), entries)[j].tier)
  {
    var ms := Matches(KeyOf(m), entries);
    if |ms| == 0 then [TieredRow(m, None)]
    else
      var out := seq(|ms|, j requires 0 <= j < |ms| => TieredRow(m, ms[j].tier));
      assert forall e :: e in ms ==> TieredRow(m, e.tier) in out by {
        forall e | e in ms ensures TieredRow(m, e.tier) in out {
          var j :| 0 <= j < |ms| && ms[j] == e;
          assert out[j] == TieredRow(m, e.tier);
        }
      }
      assert forall o :: o in out ==> MergedTier(o, entries) by {
        forall o | o in out ensures MergedTier(o, entries) {
          var j :| 0 <= j < |out| && out[j] == o;
          assert ms[j] in ms;
        }
      }
      out
  }

  /** The number of rows the left merge makes of one row with key `k`: one
      per match, or one when nothing matches. */
  function Copies(k: Key, entries: seq<TierEntry>): nat {
    var n := |Matches(k, entries)|;
    if n == 0 then 1 else n
  }

  /** The number of rows the left merge makes of a table. */
  function MergedSize(left: seq<MetricRow>, entries: seq<TierEntry>): nat {
    if |left| == 0 then 0 else Copies(KeyOf(left[0]), entries) + MergedSize(left[1..], entries)
  }

  /** `df.merge(right, on=['PLAYER_NAME', 'SEASON_ID'], how='left')`: left rows
      in order, each repeated once per match. No left row is lost and no row is
      made up; the row count can only grow. */
  function MergeLeft(left: seq<MetricRow>, entries: seq<TierEntry>): (out: seq<TieredRow>)
    ensures |out| >= |left|
    ensures forall o :: o in out ==> o.m in left
    ensures forall o :: o in out ==> MergedTier(o, entries)
    ensures forall m :: m in left ==> exists o :: o in out && o.m == m
    ensures forall m, e :: m in left && e in entries && e.key == KeyOf(m) ==> TieredRow(m, e.tier) in out
    ensures forall m :: m in left && |Matches(KeyOf(m), entries)| == 0 ==> TieredRow(m, None) in out
  {
    if |left| == 0 then []
    else
      var head := JoinRow(left[0], entries);
      var rest := MergeLeft(left[1..], entries);
      assert forall m :: m in left[1..] ==> m in left;
      assert forall m :: m in left ==> m == left[0] || m in left[1..];
      assert head[0] in head + rest;
      assert forall o :: o in head + rest <==> o in head || o in rest;
      head + rest
  }

  /** The merge works left row by left row, in order. */
  lemma MergeLeftAppend(a: seq<MetricRow>, b: seq<MetricRow>, entries: seq<TierEntry>)
    ensures MergeLeft(a + b, entries) == MergeLeft(a, entries) + MergeLeft(b, entries)
  {
    MergeLeftIsJoined(a + b, entries);
    MergeLeftIsJoined(a, entries);
    MergeLeftIsJoined(b, entries);
    JoinedAppend(a, b, entries);
  }

  /** `MergeLeft` without its contract, so that facts about the shape of the
      merge are proved without its quantifiers in scope. */
  function Joined(left: seq<MetricRow>, entries: seq<TierEntry>): seq<TieredRow> {
    if |left| == 0 then [] else JoinRow(left[0], entries) + Joined(left[1..], entries)
  }

  lemma {:induction false} MergeLeftIsJoined(left: seq<MetricRow>, entries: seq<TierEntry>)
    ensures MergeLeft(left, entries) == Joined(left, entries)
  {
    if |left| > 0 {
      MergeLeftIsJoined(left[1..], entries);
    }
  }

  lemma {:induction false} JoinedAppend(a: seq<MetricRow>, b: seq<MetricRow>, entries: seq<TierEntry>)
    ensures Joined(a + b, entries) == Joined(a, entries) + Joined(b, entries)
  {
    if |a| > 0 {
      assert (a + b)[0] == a[0] && (a + b)[1..] == a[1..] + b;
      JoinedAppend(a[1..], b, entries);
      var h, ra, rb := JoinRow(a[0], entries), Joined(a[1..], entries), Joined(b, entries);
      assert Joined(a + b, entries) == h + (ra + rb);
      assert h + (ra + rb) == (h + ra) + rb;
    } else {
      assert a + b == b;
    }
  }

  /** Merging a single row is joining it. */
  lemma MergeLeftSingle(m: MetricRow, entries: seq<TierEntry>)
    ensures MergeLeft([m], entries) == JoinRow(m, entries)
  {
    assert [m][1..] == [];
  }

  /** The rows of a table that gained no SCORING_TIER column. */
  function Untiered(rows: seq<MetricRow>): (out: seq<TieredRow>)
    ensures |out| == |rows|
    ensures forall i :: 0 <= i < |rows| ==> out[i] == TieredRow(rows[i], None)
  {
    seq(|rows|, i requires 0 <= i < |rows| => TieredRow(rows[i], None))
  }

  /** Some qualifying row has key `k`. */
  ghost predicate KeyQualifies(rows: seq<MetricRow>, k: Key) {
    exists q :: q in rows && Qualifies(q) && KeyOf(q) == k
  }

  /** `t` is the binned PPG of some qualifying row with key `k`. */
  ghost predicate KeyBin(rows: seq<MetricRow>, k: Key, t: Option<Tier>) {
    exists q :: q in rows && Qualifies(q) && KeyOf(q) == k && t == ScoringTier(q.pg.ppg)
  }

  /** The merge of a table with its own qualifying rows' tiers: a row's tier
      is the binned PPG of a qualifying row with its key, every such tier is
      attached to it, and it has no tier only when no qualifying row has its
      key or such a row's bin is empty. */
  function MergeTiers(rows: seq<MetricRow>): (out: seq<TieredRow>)
    ensures |out| >= |rows|
    ensures forall o :: o in out ==> o.m in rows
    ensures forall m :: m in rows ==> exists o :: o in out && o.m == m
    ensures forall o :: o in out && o.tier.Some? ==>
      exists q :: q in rows && Qualifies(q) && KeyOf(q) == KeyOf(o.m) && o.tier == ScoringTier(q.pg.ppg)
    ensures forall m, q :: m in rows && q in rows && Qualifies(q) && KeyOf(q) == KeyOf(m) ==>
      TieredRow(m, ScoringTier(q.pg.ppg)) in out
    ensures forall o :: o in out && KeyQualifies(rows, KeyOf(o.m)) ==> KeyBin(rows, KeyOf(o.m), o.tier)
    ensures forall o :: o in out && !KeyQualifies(rows, KeyOf(o.m)) ==> o.tier == None
  {
    var active := ActiveTiers(rows);
    var out := MergeLeft(rows, active);
    forall o | o in out
      ensures KeyQualifies(rows, KeyOf(o.m)) ==> KeyBin(rows, KeyOf(o.m), o.tier)
      ensures !KeyQualifies(rows, KeyOf(o.m)) ==> o.tier == None
    {
      ActiveTier(rows, o);
    }
    forall m, q | m in rows && q in rows && Qualifies(q) && KeyOf(q) == KeyOf(m)
      ensures TieredRow(m, ScoringTier(q.pg.ppg)) in out
    {
      var e := TierEntry(KeyOf(q), ScoringTier(q.pg.ppg));
      assert e in active && e.key == KeyOf(m);
    }
    out
  }

  /** A tier taken from the table's own qualifying rows is the bin of a
      qualifying row with that key, or NaN when there is none. */
  lemma ActiveTier(rows: seq<MetricRow>, o: TieredRow)
    requires MergedTier(o, ActiveTiers(rows))
    ensures KeyQualifies(rows, KeyOf(o.m)) ==> KeyBin(rows, KeyOf(o.m), o.tier)
    ensures !KeyQualifies(rows, KeyOf(o.m)) ==> o.tier == None
  {
    var active := ActiveTiers(rows);
    if e :| e in active && e.key == KeyOf(o.m) {
      var e' :| e' in active && e'.key == KeyOf(o.m) && o.tier == e'.tier;
      var q :| q in rows && Qualifies(q) && e' == TierEntry(KeyOf(q), ScoringTier(q.pg.ppg));
      assert KeyQualifies(rows, KeyOf(o.m)) && KeyBin(rows, KeyOf(o.m), o.tier);
    } else {
      forall q | q in rows && Qualifies(q) ensures KeyOf(q) != KeyOf(o.m) {
        assert TierEntry(KeyOf(q), ScoringTier(q.pg.ppg)) in active;
      }
    }
  }

  /** The stage as the source writes it. */
  function AddPerformanceCategoriesAsWritten(rows: seq<MetricRow>): (t: TierTable)
    ensures t.hasTierColumn <==> AnyQualifies(rows)
    ensures |t.rows| >= |rows|
    ensures forall o :: o in t.rows ==> o.m in rows
    ensures forall m :: m in rows ==> exists o :: o in t.rows && o.m == m
    ensures forall o :: o in t.rows && o.tier.Some? ==>
      exists q :: q in rows && Qualifies(q) && KeyOf(q) == KeyOf(o.m) && o.tier == ScoringTier(q.pg.ppg)
    ensures forall m, q :: m in rows && q in rows && Qualifies(q) && KeyOf(q) == KeyOf(m) ==>
      TieredRow(m, ScoringTier(q.pg.ppg)) in t.rows
    ensures forall o :: o in t.rows && KeyQualifies(rows, KeyOf(o.m)) ==> KeyBin(rows, KeyOf(o.m), o.tier)
    ensures forall o :: o in t.rows && !KeyQualifies(rows, KeyOf(o.m)) ==> o.tier == None
  {
    if AnyQualifies(rows) then TierTable(MergeTiers(rows), true)
    else
      var out := Untiered(rows);
      assert forall q :: q in rows ==> !Qualifies(q) by {
        forall q | q in rows ensures !Qualifies(q) {
          var i :| 0 <= i < |rows| && rows[i] == q;
        }
      }
      assert forall m :: m in rows ==> TieredRow(m, None) in out by {
        forall m | m in rows ensures TieredRow(m, None) in out {
          var i :| 0 <= i < |rows| && rows[i] == m;
          assert out[i] == TieredRow(m, None);
        }
      }
      TierTable(out, false)
  }

  /** Two rows with one merge key multiply: each left row matches both right
      rows, so two qualifying duplicates come out as four tiered copies. */
  lemma DuplicateKeysMultiplyRows(m: MetricRow)
    requires Qualifies(m)
    ensures |AddPerformanceCategoriesAsWritten([m, m]).rows| == 4
    ensures var o := TieredRow(m, ScoringTier(m.pg.ppg));
      AddPerformanceCategoriesAsWritten([m, m]).rows == [o, o, o, o]
  {
    var e := TierEntry(KeyOf(m), ScoringTier(m.pg.ppg));
    var o := TieredRow(m, ScoringTier(m.pg.ppg));
    TwoCopiesActive(m);
    JoinTwoEntries(m, e);
    AsWrittenIsMerge([m, m]);
    MergeLeftIsJoined([m, m], [e, e]);
    JoinedTwice(m, [e, e]);
    TwoPairs(o);
  }

  lemma TwoPairs(o: TieredRow)
    ensures [o, o] + [o, o] == [o, o, o, o]
  {
  }

  /** Merging two copies of a row joins it twice. */
  lemma JoinedTwice(m: MetricRow, entries: seq<TierEntry>)
    ensures Joined([m, m], entries) == JoinRow(m, entries) + JoinRow(m, entries)
  {
    assert [m, m][1..] == [m] && [m][1..] == [];
    assert Joined([m], entries) == JoinRow(m, entries) + [];
  }

  /** Two copies of a qualifying row put two equal entries on the right. */
  lemma TwoCopiesActive(m: MetricRow)
    requires Qualifies(m)
    ensures ActiveTiers([m, m]) == [TierEntry(KeyOf(m), ScoringTier(m.pg.ppg)), TierEntry(KeyOf(m), ScoringTier(m.pg.ppg))]
  {
    assert [m, m][1..] == [m];
    assert [m][1..] == [];
  }

  /** A row matched by two entries with its key comes out twice, with their
      tier. */
  lemma JoinTwoEntries(m: MetricRow, e: TierEntry)
    requires e.key == KeyOf(m)
    ensures JoinRow(m, [e, e]) == [TieredRow(m, e.tier), TieredRow(m, e.tier)]
  {
    assert [e, e][1..] == [e] && [e][1..] == [];
    assert Matches(KeyOf(m), [e]) == [e];
    assert Matches(KeyOf(m), [e, e]) == [e, e];
  }

  /** The stage as intended: every row keeps its place and receives its own
      tier, and the column exists exactly when some row qualifies. */
  function AddPerformanceCategories(rows: seq<MetricRow>): (t: TierTable)
    ensures t.hasTierColumn <==> AnyQualifies(rows)
    ensures |t.rows| == |rows|
    ensures forall i :: 0 <= i < |rows| ==> t.rows[i].m == rows[i]
    ensures forall i :: 0 <= i < |rows| && !Qualifies(rows[i]) ==> t.rows[i].tier == None
    ensures forall i :: 0 <= i < |rows| && Qualifies(rows[i]) ==> t.rows[i].tier == ScoringTier(rows[i].pg.ppg)
  {
    TierTable(seq(|rows|, i requires 0 <= i < |rows| => TieredRow(rows[i], TierOf(rows[i]))), AnyQualifies(rows))
  }

  /** No two rows share a (PLAYER_NAME, SEASON_ID) key. */
  predicate UniqueKeys(rows: seq<MetricRow>) {
    forall i, j :: 0 <= i < j < |rows| ==> KeyOf(rows[i]) != KeyOf(rows[j])
  }

  /** The rows carrying key `k`, in order. */
  function WithKey(k: Key, rows: seq<MetricRow>): seq<MetricRow> {
    if |rows| == 0 then []
    else (if KeyOf(rows[0]) == k then [rows[0]] else []) + WithKey(k, rows[1..])
  }

  /** Matching against the active rows is the same as activating the rows
      with that key. */
  lemma {:induction false} MatchesActive(k: Key, rows: seq<MetricRow>)
    ensures Matches(k, ActiveTiers(rows)) == ActiveTiers(WithKey(k, rows))
  {
    if |rows| > 0 {
      MatchesActive(k, rows[1..]);
      MatchesConcat(k, EntryOf(rows[0]), ActiveTiers(rows[1..]));
      var w := if KeyOf(rows[0]) == k then [rows[0]] else [];
      ActiveConcat(w, WithKey(k, rows[1..]));
      if KeyOf(rows[0]) == k {
        assert [rows[0]][1..] == [];
        assert ActiveTiers(w) == EntryOf(rows[0]);
      }
    }
  }

  lemma {:induction false} MatchesConcat(k: Key, a: seq<TierEntry>, b: seq<TierEntry>)
    ensures Matches(k, a + b) == Matches(k, a) + Matches(k, b)
  {
    if |a| > 0 {
      assert (a + b)[0] == a[0] && (a + b)[1..] == a[1..] + b;
      MatchesConcat(k, a[1..], b);
    } else {
      assert a + b == b;
    }
  }

  lemma {:induction false} ActiveConcat(a: seq<MetricRow>, b: seq<MetricRow>)
    ensures ActiveTiers(a + b) == ActiveTiers(a) + ActiveTiers(b)
  {
    if |a| > 0 {
      assert (a + b)[0] == a[0] && (a + b)[1..] == a[1..] + b;
      ActiveConcat(a[1..], b);
    } else {
      assert a + b == b;
    }
  }

  /** When `rows[i]` is the only row with its key, it is all `WithKey` finds. */
  lemma {:induction false} WithKeyOnly(rows: seq<MetricRow>, i: nat)
    requires i < |rows|
    requires forall j :: 0 <= j < |rows| && j != i ==> KeyOf(rows[j]) != KeyOf(rows[i])
    ensures WithKey(KeyOf(rows[i]), rows) == [rows[i]]
  {
    if i == 0 {
      WithKeyNone(KeyOf(rows[0]), rows[1..]);
    } else {
      WithKeyOnly(rows[1..], i - 1);
    }
  }

  lemma {:induction false} WithKeyNone(k: Key, rows: seq<MetricRow>)
    requires forall j :: 0 <= j < |rows| ==> KeyOf(rows[j]) != k
    ensures WithKey(k, rows) == []
  {
    if |rows| > 0 {
      WithKeyNone(k, rows[1..]);
    }
  }

  /** Under unique keys each row's merge is that row with its own tier. */
  lemma JoinUnique(rows: seq<MetricRow>, i: nat)
    requires UniqueKeys(rows) && i < |rows|
    ensures JoinRow(rows[i], ActiveTiers(rows)) == [TieredRow(rows[i], TierOf(rows[i]))]
  {
    var m := rows[i];
    WithKeyOnly(rows, i);
    MatchesActive(KeyOf(m), rows);
    assert [m][1..] == [];
    assert ActiveTiers([m]) == EntryOf(m);
    JoinOwn(m, ActiveTiers(rows));
  }

  /** A row whose only match is its own entry gets its own tier. */
  lemma JoinOwn(m: MetricRow, entries: seq<TierEntry>)
    requires Matches(KeyOf(m), entries) == EntryOf(m)
    ensures JoinRow(m, entries) == [TieredRow(m, TierOf(m))]
  {
    var out := JoinRow(m, entries);
    if Qualifies(m) {
      assert |out| == 1 && out[0] == TieredRow(m, EntryOf(m)[0].tier);
    }
  }

  /** Each row with its own tier, in place. */
  function Positional(rows: seq<MetricRow>): seq<TieredRow> {
    seq(|rows|, i requires 0 <= i < |rows| => TieredRow(rows[i], TierOf(rows[i])))
  }

  lemma PositionalCons(rows: seq<MetricRow>)
    requires |rows| > 0
    ensures Positional(rows) == [TieredRow(rows[0], TierOf(rows[0]))] + Positional(rows[1..])
  {
  }

  lemma {:induction false} MergeSuffix(rows: seq<MetricRow>, j: nat)
    requires UniqueKeys(rows) && j <= |rows|
    ensures MergeLeft(rows[j..], ActiveTiers(rows)) == Positional(rows[j..])
    decreases |rows| - j
  {
    if j < |rows| {
      var s := rows[j..];
      assert s[0] == rows[j] && s[1..] == rows[j + 1..];
      MergeSuffix(rows, j + 1);
      JoinUnique(rows, j);
      PositionalCons(s);
      assert MergeLeft(s, ActiveTiers(rows)) == JoinRow(s[0], ActiveTiers(rows)) + MergeLeft(s[1..], ActiveTiers(rows));
    }
  }

  /** With unique (PLAYER_NAME, SEASON_ID) keys the merge is harmless: the
      stage as written equals the intended one, so it keeps the row count. */
  lemma UniqueKeysMergeIsPositional(rows: seq<MetricRow>)
    requires UniqueKeys(rows)
    ensures AddPerformanceCategoriesAsWritten(rows) == AddPerformanceCategories(rows)
  {
    if AnyQualifies(rows) {
      MergeSuffix(rows, 0);
      assert rows[0..] == rows;
      assert Positional(rows) == AddPerformanceCategories(rows).rows;
    }
  }

  // ---------------------------------------------------------------------------
  // The row count of the merge as written

  /** Merging a table makes `MergedSize` rows of it. */
  lemma {:induction false} MergeLeftSize(left: seq<MetricRow>, entries: seq<TierEntry>)
    ensures |MergeLeft(left, entries)| == MergedSize(left, entries)
  {
    if |left| > 0 {
      MergeLeftSize(left[1..], entries);
    }
  }

  /** The number of qualifying rows. */
  function QualifyingCount(rows: seq<MetricRow>): nat {
    if |rows| == 0 then 0 else (if Qualifies(rows[0]) then 1 else 0) + QualifyingCount(rows[1..])
  }

  lemma {:induction false} ActiveCount(rows: seq<MetricRow>)
    ensures |ActiveTiers(rows)| == QualifyingCount(rows)
  {
    if |rows| > 0 {
      ActiveCount(rows[1..]);
    }
  }

  /** The merged rows whose (PLAYER_NAME, SEASON_ID) is `k`, in order. */
  function TieredWithKey(k: Key, out: seq<TieredRow>): seq<TieredRow> {
    if |out| == 0 then []
    else (if KeyOf(out[0].m) == k then [out[0]] else []) + TieredWithKey(k, out[1..])
  }

  lemma {:induction false} TieredWithKeyAppend(k: Key, a: seq<TieredRow>, b: seq<TieredRow>)
    ensures TieredWithKey(k, a + b) == TieredWithKey(k, a) + TieredWithKey(k, b)
  {
    if |a| > 0 {
      assert (a + b)[0] == a[0] && (a + b)[1..] == a[1..] + b;
      TieredWithKeyAppend(k, a[1..], b);
    } else {
      assert a + b == b;
    }
  }

  /** Rows that all carry the left row `m` are all kept by the filter on
      `m`'s key, and none is kept by any other key. */
  lemma {:induction false} TieredWithKeyOfJoin(k: Key, m: MetricRow, out: seq<TieredRow>)
    requires forall o :: o in out ==> o.m == m
    ensures |TieredWithKey(k, out)| == if KeyOf(m) == k then |out| else 0
  {
    if |out| > 0 {
      assert out[0] in out;
      assert forall o :: o in out[1..] ==> o in out;
      TieredWithKeyOfJoin(k, m, out[1..]);
    }
  }

  /** Each left row with key `k` is repeated once per match of `k`. */
  lemma {:induction false} MergeLeftKeyCount(k: Key, left: seq<MetricRow>, entries: seq<TierEntry>)
    ensures |TieredWithKey(k, MergeLeft(left, entries))| == |WithKey(k, left)| * Copies(k, entries)
  {
    if |left| > 0 {
      var head := JoinRow(left[0], entries);
      var c := Copies(k, entries);
      var n := |WithKey(k, left[1..])|;
      MergeLeftKeyCount(k, left[1..], entries);
      TieredWithKeyAppend(k, head, MergeLeft(left[1..], entries));
      TieredWithKeyOfJoin(k, left[0], head);
      if KeyOf(left[0]) == k {
        assert |WithKey(k, left)| == 1 + n;
        OneMore(n, c);
      }
    }
  }

  lemma OneMore(n: nat, c: nat)
    ensures (1 + n) * c == c + n * c
  {
  }

  lemma {:induction false} NoneActive(rows: seq<MetricRow>)
    requires forall i :: 0 <= i < |rows| ==> !Qualifies(rows[i])
    ensures ActiveTiers(rows) == []
  {
    if |rows| > 0 {
      NoneActive(rows[1..]);
    }
  }

  /** With nothing to match, the left merge gives every row a NaN tier. */
  lemma UntieredMerge(rows: seq<MetricRow>)
    ensures MergeLeft(rows, []) == Untiered(rows)
  {
    MergeLeftIsJoined(rows, []);
    UntieredJoined(rows);
  }

  lemma {:induction false} UntieredJoined(rows: seq<MetricRow>)
    ensures Joined(rows, []) == Untiered(rows)
  {
    if |rows| > 0 {
      UntieredJoined(rows[1..]);
      assert Untiered(rows) == [TieredRow(rows[0], None)] + Untiered(rows[1..]);
    }
  }

  /** Whether or not a row qualifies, the stage as written is the left merge
      of the table with its own qualifying rows' tiers. */
  lemma AsWrittenIsMerge(rows: seq<MetricRow>)
    ensures AddPerformanceCategoriesAsWritten(rows).rows == MergeLeft(rows, ActiveTiers(rows))
  {
    if !AnyQualifies(rows) {
      NoneActive(rows);
      UntieredMerge(rows);
    }
  }

  /** A (PLAYER_NAME, SEASON_ID) key held by k rows of which q qualify comes
      out of the stage as written k * q times, or k times when none of them
      qualifies. */
  lemma DuplicateKeysMultiply(rows: seq<MetricRow>, k: Key)
    ensures var q := QualifyingCount(WithKey(k, rows));
      |TieredWithKey(k, AddPerformanceCategoriesAsWritten(rows).rows)| == |WithKey(k, rows)| * (if q == 0 then 1 else q)
  {
    AsWrittenIsMerge(rows);
    MergeLeftKeyCount(k, rows, ActiveTiers(rows));
    MatchesActive(k, rows);
    ActiveCount(WithKey(k, rows));
  }
}
