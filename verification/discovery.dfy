/**
 Discovery of pending migration files: keep the `.ts` files whose numeric
 prefix (the text before the first `_`) is greater than `latestMigration`,
 then sort them ascending by that key with a stable sort.
 */
module Discovery {
  import opened Wrappers

  /** One discovered migration file. */
  datatype MigrationData = MigrationData(fullPath: string, fileName: string, migrationTimestamp: int)

  predicate IsDigit(c: char) {
    '0' <= c <= '9'
  }

  predicate AllDigits(s: string) {
    forall i :: 0 <= i < |s| ==> IsDigit(s[i])
  }

  /** The value of a string of decimal digits (leading zeros allowed). */
  function DecimalValue(s: string): nat
    requires AllDigits(s)
  {
    if |s| == 0 then 0 else DecimalValue(s[..|s| - 1]) * 10 + (s[|s| - 1] as int - '0' as int)
  }

  /** The decimal representation of `n`, without leading zeros. */
  function DecimalString(n: nat): (s: string)
    ensures |s| > 0 && AllDigits(s)
  {
    var last := ['0' + (n % 10) as char];
    if n < 10 then last else DecimalString(n / 10) + last
  }

  /** `fileName.split(sep)[0]`: everything before the first `sep`, or the
      whole name when there is none. */
  function SplitHead(name: string, sep: char): (head: string)
    ensures sep !in head
    ensures |head| <= |name| && head == name[..|head|]
    ensures |head| < |name| ==> name[|head|] == sep
  {
    if |name| == 0 || name[0] == sep then [] else [name[0]] + SplitHead(name[1..], sep)
  }

  /** `Number(token)` restricted to what migration file names contain: a
      run of decimal digits is its value, the empty string is 0, anything
      else is NaN (None). */
  function ParseNumber(token: string): (r: Option<int>)
    ensures r.Some? <==> AllDigits(token)
    ensures r.Some? ==> r.value >= 0
    ensures token == [] ==> r == Some(0)
  {
    if AllDigits(token) then Some(DecimalValue(token)) else None
  }

  /** `Number(fileName.split('_')[0])`. */
  function MigrationKey(fileName: string): Option<int> {
    ParseNumber(SplitHead(fileName, '_'))
  }

  predicate IsTs(fileName: string) {
    |fileName| >= 3 && fileName[|fileName| - 3..] == ".ts"
  }

  /** `path.join(folder, fileName)`. */
  function JoinPath(folder: string, fileName: string): string {
    folder + "/" + fileName
  }

  /** A file is selected when it is a `.ts` file whose key is a number
      greater than `latest` (`NaN > latest` is false). */
  predicate Selected(fileName: string, latest: int) {
    IsTs(fileName) && MigrationKey(fileName).Some? && MigrationKey(fileName).value > latest
  }

  function DataFor(folder: string, fileName: string): MigrationData
    requires MigrationKey(fileName).Some?
  {
    MigrationData(JoinPath(folder, fileName), fileName, MigrationKey(fileName).value)
  }

  /** The filter loop over the listed files, in listing order. */
  function Collect(folder: string, files: seq<string>, latest: int): (r: seq<MigrationData>)
    ensures |r| <= |files|
    ensures forall d :: d in r ==> exists i :: 0 <= i < |files| && Selected(files[i], latest) && d == DataFor(folder, files[i])
    ensures forall i :: 0 <= i < |files| && Selected(files[i], latest) ==> DataFor(folder, files[i]) in r
  {
    if |files| == 0 then []
    else
      var rest := Collect(folder, files[1..], latest);
      assert forall i :: 1 <= i < |files| ==> files[i] == files[1..][i - 1];
      if Selected(files[0], latest) then [DataFor(folder, files[0])] + rest else rest
  }

  /** The filter keeps the listing order: the entries of a listing split in
      two are those of the first part followed by those of the second. */
  lemma {:induction false} CollectAppend(folder: string, a: seq<string>, b: seq<string>, latest: int)
    ensures Collect(folder, a + b, latest) == Collect(folder, a, latest) + Collect(folder, b, latest)
  {
    if |a| > 0 {
      assert (a + b)[0] == a[0];
      assert (a + b)[1..] == a[1..] + b;
      CollectAppend(folder, a[1..], b, latest);
    } else {
      assert a + b == b;
    }
  }

  predicate Sorted(s: seq<MigrationData>) {
    forall i, j :: 0 <= i < j < |s| ==> s[i].migrationTimestamp <= s[j].migrationTimestamp
  }

  predicate StrictlyAscending(s: seq<MigrationData>) {
    forall i, j :: 0 <= i < j < |s| ==> s[i].migrationTimestamp < s[j].migrationTimestamp
  }

  /** No two entries share a key. */
  predicate DistinctKeys(s: seq<MigrationData>) {
    forall i, j :: 0 <= i < j < |s| ==> s[i].migrationTimestamp != s[j].migrationTimestamp
  }

  /** Puts `d` in front of the first entry whose key is not smaller, so
      that `d` stays ahead of the equal keys that followed it. */
  function Insert(d: MigrationData, s: seq<MigrationData>): seq<MigrationData> {
    if |s| == 0 then [d]
    else if d.migrationTimestamp <= s[0].migrationTimestamp then [d] + s
    else [s[0]] + Insert(d, s[1..])
  }

  /** `migrationsData.sort(...)` with the three-way comparator on the key:
      the stable ascending sort. */
  function SortByKey(s: seq<MigrationData>): seq<MigrationData> {
    if |s| == 0 then [] else Insert(s[0], SortByKey(s[1..]))
  }

  /** The pending list of a run. */
  function Pending(folder: string, files: seq<string>, latest: int): seq<MigrationData> {
    SortByKey(Collect(folder, files, latest))
  }

  /** The entries with key `k`, in order. */
  function WithKey(s: seq<MigrationData>, k: int): seq<MigrationData> {
    if |s| == 0 then []
    else (if s[0].migrationTimestamp == k then [s[0]] else []) + WithKey(s[1..], k)
  }

  // ---- the key parse ------------------------------------------------------

  lemma {:induction false} DecimalValueAppend(s: string, c: char)
    requires AllDigits(s) && IsDigit(c)
    ensures AllDigits(s + [c])
    ensures DecimalValue(s + [c]) == DecimalValue(s) * 10 + (c as int - '0' as int)
  {
    assert (s + [c])[..|s + [c]| - 1] == s;
  }

  /** Parsing the decimal string of a number gives that number back. */
  lemma {:induction false} ParseDecimalString(n: nat)
    ensures ParseNumber(DecimalString(n)) == Some(n)
    ensures DecimalValue(DecimalString(n)) == n
  {
    var c := '0' + (n % 10) as char;
    if n < 10 {
      assert DecimalString(n) == [] + [c];
      DecimalValueAppend([], c);
    } else {
      ParseDecimalString(n / 10);
      DecimalValueAppend(DecimalString(n / 10), c);
    }
  }

  lemma {:induction false} LeadingZeroValue(s: string)
    requires AllDigits(s)
    ensures AllDigits("0" + s)
    ensures DecimalValue("0" + s) == DecimalValue(s)
  {
    if |s| > 0 {
      var init := s[..|s| - 1];
      LeadingZeroValue(init);
      assert ("0" + s)[..|"0" + s| - 1] == "0" + init;
    } else {
      assert ("0" + s)[..0] == [];
    }
  }

  /** A leading zero does not change the value: `Number("007") === 7`. */
  lemma ParseNumberLeadingZero(token: string)
    ensures ParseNumber("0" + token) == ParseNumber(token)
  {
    if AllDigits(token) {
      LeadingZeroValue(token);
    } else {
      var i :| 0 <= i < |token| && !IsDigit(token[i]);
      assert ("0" + token)[i + 1] == token[i];
    }
  }

  /** The keys of a few names as `Number` gives them. */
  lemma KeyExamples()
    ensures MigrationKey("_x.ts") == Some(0)
    ensures MigrationKey("007_vault.ts") == Some(7)
    ensures MigrationKey("2a_vault.ts") == None
  {
    SplitHeadStopsAtSep("", '_', "x.ts");
    SplitHeadStopsAtSep("007", '_', "vault.ts");
    SplitHeadStopsAtSep("2a", '_', "vault.ts");
    ParseDecimalString(7);
    assert DecimalString(7) == "7";
    ParseNumberLeadingZero("7");
    ParseNumberLeadingZero("07");
    assert "0" + "7" == "07" && "0" + "07" == "007";
    assert "007" + ['_'] + "vault.ts" == "007_vault.ts";
    assert !IsDigit("2a"[1]);
  }

  lemma {:induction false} SplitHeadStopsAtSep(prefix: string, sep: char, suffix: string)
    requires sep !in prefix
    ensures SplitHead(prefix + [sep] + suffix, sep) == prefix
  {
    if |prefix| > 0 {
      assert (prefix + [sep] + suffix)[1..] == prefix[1..] + [sep] + suffix;
      SplitHeadStopsAtSep(prefix[1..], sep, suffix);
    } else {
      assert (prefix + [sep] + suffix)[0] == sep;
    }
  }

  /** A name of the form `<n>_<rest>` has key `n`. */
  lemma KeyOfNumberedName(n: nat, rest: string)
    ensures MigrationKey(DecimalString(n) + "_" + rest) == Some(n)
  {
    SplitHeadStopsAtSep(DecimalString(n), '_', rest);
    ParseDecimalString(n);
  }

  /** A name whose prefix before `_` holds a non-digit is never selected,
      whatever `latestMigration` is. */
  lemma NonNumericKeyDropped(fileName: string, latest: int)
    requires !AllDigits(SplitHead(fileName, '_'))
    ensures !Selected(fileName, latest)
  {
  }

  // ---- the sort -----------------------------------------------------------

  /** A sorted list stays sorted when an entry no larger than any of its
      entries is put in front. */
  lemma SortedCons(x: MigrationData, r: seq<MigrationData>)
    requires Sorted(r)
    requires forall j :: 0 <= j < |r| ==> x.migrationTimestamp <= r[j].migrationTimestamp
    ensures Sorted([x] + r)
  {
    forall a, b | 0 <= a < b < |[x] + r|
      ensures ([x] + r)[a].migrationTimestamp <= ([x] + r)[b].migrationTimestamp
    {
      assert ([x] + r)[b] == r[b - 1];
      if a > 0 {
        assert ([x] + r)[a] == r[a - 1];
      }
    }
  }

  /** Insertion adds exactly `d`. */
  lemma {:induction false} InsertPermutes(d: MigrationData, s: seq<MigrationData>)
    ensures |Insert(d, s)| == |s| + 1
    ensures multiset(Insert(d, s)) == multiset(s) + multiset{d}
  {
    if |s| > 0 && d.migrationTimestamp > s[0].migrationTimestamp {
      InsertPermutes(d, s[1..]);
      assert s == [s[0]] + s[1..];
    }
  }

  /** Every entry of `Insert(d, s)` is `d` or an entry of `s`. */
  lemma InsertMembers(d: MigrationData, s: seq<MigrationData>)
    ensures forall j :: 0 <= j < |Insert(d, s)| ==> Insert(d, s)[j] == d || Insert(d, s)[j] in s
  {
    InsertPermutes(d, s);
    forall j | 0 <= j < |Insert(d, s)| ensures Insert(d, s)[j] == d || Insert(d, s)[j] in s {
      assert Insert(d, s)[j] in multiset(Insert(d, s));
    }
  }

  lemma {:induction false} InsertSorted(d: MigrationData, s: seq<MigrationData>)
    requires Sorted(s)
    ensures Sorted(Insert(d, s))
  {
    if |s| == 0 {
    } else if d.migrationTimestamp <= s[0].migrationTimestamp {
      SortedCons(d, s);
    } else {
      var tail := s[1..];
      InsertSorted(d, tail);
      InsertMembers(d, tail);
      var r := Insert(d, tail);
      forall j | 0 <= j < |r| ensures s[0].migrationTimestamp <= r[j].migrationTimestamp {
        if r[j] != d {
          var k :| 0 <= k < |tail| && tail[k] == r[j];
          assert s[k + 1] == r[j];
        }
      }
      SortedCons(s[0], r);
    }
  }

  /** The sorted list is ascending by key. */
  lemma {:induction false} SortByKeySorted(s: seq<MigrationData>)
    ensures Sorted(SortByKey(s))
  {
    if |s| > 0 {
      SortByKeySorted(s[1..]);
      InsertSorted(s[0], SortByKey(s[1..]));
    }
  }

  /** The sorted list is a permutation of its input. */
  lemma {:induction false} SortByKeyPermutes(s: seq<MigrationData>)
    ensures |SortByKey(s)| == |s|
    ensures multiset(SortByKey(s)) == multiset(s)
  {
    if |s| > 0 {
      var tail := s[1..];
      SortByKeyPermutes(tail);
      InsertPermutes(s[0], SortByKey(tail));
      assert s == [s[0]] + tail;
      assert multiset(s) == multiset{s[0]} + multiset(tail);
    }
  }

  lemma {:induction false} WithKeyAppend(a: seq<MigrationData>, b: seq<MigrationData>, k: int)
    ensures WithKey(a + b, k) == WithKey(a, k) + WithKey(b, k)
  {
    if |a| > 0 {
      assert (a + b)[1..] == a[1..] + b;
      WithKeyAppend(a[1..], b, k);
    } else {
      assert a + b == b;
    }
  }

  lemma WithKeySingle(x: MigrationData, k: int)
    ensures WithKey([x], k) == if x.migrationTimestamp == k then [x] else []
  {
  }

  lemma {:induction false} InsertStable(d: MigrationData, s: seq<MigrationData>, k: int)
    ensures WithKey(Insert(d, s), k) == WithKey([d], k) + WithKey(s, k)
  {
    if |s| == 0 {
      assert [d] + s == [d];
    } else if d.migrationTimestamp <= s[0].migrationTimestamp {
      WithKeyAppend([d], s, k);
    } else {
      var tail := s[1..];
      assert Insert(d, s) == [s[0]] + Insert(d, tail);
      InsertStable(d, tail, k);
      WithKeyAppend([s[0]], Insert(d, tail), k);
      assert s == [s[0]] + tail;
      WithKeyAppend([s[0]], tail, k);
      WithKeySingle(s[0], k);
      WithKeySingle(d, k);
      // `d` and `s[0]` have different keys, so at most one of them is kept
      if s[0].migrationTimestamp == k {
        assert WithKey([d], k) == [];
      } else {
        assert WithKey([s[0]], k) == [];
      }
    }
  }

  /** The sort is stable: the entries sharing any one key keep their order. */
  lemma {:induction false} SortByKeyStable(s: seq<MigrationData>, k: int)
    ensures WithKey(SortByKey(s), k) == WithKey(s, k)
  {
    if |s| > 0 {
      SortByKeyStable(s[1..], k);
      InsertStable(s[0], SortByKey(s[1..]), k);
      WithKeyAppend([s[0]], s[1..], k);
      assert s == [s[0]] + s[1..];
    }
  }

  /** The pending list holds the selected files with the multiplicities
      of the filtered list. */
  lemma PendingPermutes(folder: string, files: seq<string>, latest: int)
    ensures multiset(Pending(folder, files, latest)) == multiset(Collect(folder, files, latest))
  {
    SortByKeyPermutes(Collect(folder, files, latest));
  }

  /** An entry is pending exactly when it comes from a listed file that is
      selected. */
  lemma PendingSelects(folder: string, files: seq<string>, latest: int)
    ensures forall d :: d in Pending(folder, files, latest) <==>
      exists i :: 0 <= i < |files| && Selected(files[i], latest) && d == DataFor(folder, files[i])
  {
    var c := Collect(folder, files, latest);
    PendingPermutes(folder, files, latest);
    forall d ensures d in Pending(folder, files, latest) <==> d in c {
      assert d in multiset(Pending(folder, files, latest)) <==> d in multiset(c);
    }
  }

  /** The pending list is sorted ascending by key, every key in it is
      above `latest`, it keeps the listing order among equal keys, and it is
      strictly ascending when the keys are distinct. */
  lemma PendingCorrect(folder: string, files: seq<string>, latest: int)
    ensures Sorted(Pending(folder, files, latest))
    ensures forall d :: d in Pending(folder, files, latest) ==> d.migrationTimestamp > latest
    ensures forall k :: WithKey(Pending(folder, files, latest), k) == WithKey(Collect(folder, files, latest), k)
    ensures DistinctKeys(Pending(folder, files, latest)) ==> StrictlyAscending(Pending(folder, files, latest))
  {
    var c := Collect(folder, files, latest);
    SortByKeySorted(c);
    PendingSelects(folder, files, latest);
    forall k ensures WithKey(Pending(folder, files, latest), k) == WithKey(c, k) {
      SortByKeyStable(c, k);
    }
  }

  // ---- raising `latestMigration` -------------------------------------------

  /** The entries whose key is greater than `t`, in order. */
  function Above(s: seq<MigrationData>, t: int): seq<MigrationData> {
    if |s| == 0 then []
    else (if s[0].migrationTimestamp > t then [s[0]] else []) + Above(s[1..], t)
  }

  /** `Above` keeps exactly the entries with a key above `t`. */
  lemma {:induction false} AboveMembers(s: seq<MigrationData>, t: int)
    ensures forall d :: d in Above(s, t) <==> d in s && d.migrationTimestamp > t
  {
    if |s| > 0 {
      AboveMembers(s[1..], t);
      assert s == [s[0]] + s[1..];
    }
  }

  lemma {:induction false} AboveAppend(a: seq<MigrationData>, b: seq<MigrationData>, t: int)
    ensures Above(a + b, t) == Above(a, t) + Above(b, t)
  {
    if |a| > 0 {
      assert (a + b)[1..] == a[1..] + b;
      AboveAppend(a[1..], b, t);
    } else {
      assert a + b == b;
    }
  }

  /** Selecting against a larger `latestMigration` selects the entries of
      the smaller selection whose key is above it. */
  lemma {:induction false} CollectAbove(folder: string, files: seq<string>, lo: int, hi: int)
    requires lo <= hi
    ensures Collect(folder, files, hi) == Above(Collect(folder, files, lo), hi)
  {
    if |files| > 0 {
      CollectAbove(folder, files[1..], lo, hi);
      var rest := Collect(folder, files[1..], lo);
      if Selected(files[0], lo) {
        AboveAppend([DataFor(folder, files[0])], rest, hi);
      }
    }
  }

  lemma {:induction false} InsertAbove(d: MigrationData, s: seq<MigrationData>, t: int)
    ensures Above(Insert(d, s), t) == if d.migrationTimestamp > t then Insert(d, Above(s, t)) else Above(s, t)
  {
    if |s| == 0 {
      assert Above([d], t) == (if d.migrationTimestamp > t then [d] else []) + Above([], t);
    } else {
      var tail := s[1..];
      assert s == [s[0]] + tail;
      AboveAppend([s[0]], tail, t);
      assert Above([s[0]], t) == (if s[0].migrationTimestamp > t then [s[0]] else []) + Above([], t);
      assert Above([d], t) == (if d.migrationTimestamp > t then [d] else []) + Above([], t);
      if d.migrationTimestamp <= s[0].migrationTimestamp {
        AboveAppend([d], s, t);
        if d.migrationTimestamp > t {
          assert Above(s, t) == [s[0]] + Above(tail, t);
          assert Insert(d, Above(s, t)) == [d] + Above(s, t);
        }
      } else {
        InsertAbove(d, tail, t);
        assert Insert(d, s) == [s[0]] + Insert(d, tail);
        AboveAppend([s[0]], Insert(d, tail), t);
        if s[0].migrationTimestamp > t {
          assert Above(s, t) == [s[0]] + Above(tail, t);
          if d.migrationTimestamp > t {
            assert Insert(d, Above(s, t)) == [s[0]] + Insert(d, Above(tail, t));
          }
        } else {
          assert Above(s, t) == Above(tail, t);
        }
      }
    }
  }

  /** Sorting commutes with dropping the entries at or below a key. */
  lemma {:induction false} SortAbove(s: seq<MigrationData>, t: int)
    ensures SortByKey(Above(s, t)) == Above(SortByKey(s), t)
  {
    if |s| > 0 {
      SortAbove(s[1..], t);
      InsertAbove(s[0], SortByKey(s[1..]), t);
      if s[0].migrationTimestamp > t {
        assert Above(s, t) == [s[0]] + Above(s[1..], t);
        assert Above(s, t)[0] == s[0] && Above(s, t)[1..] == Above(s[1..], t);
      } else {
        assert Above(s, t) == Above(s[1..], t);
      }
    }
  }

  /** In a strictly ascending list, the entries above the key of entry
      `p - 1` are exactly those from `p` on. */
  lemma {:induction false} AboveAscending(s: seq<MigrationData>, t: int, p: nat)
    requires StrictlyAscending(s) && p <= |s|
    requires forall i :: 0 <= i < p ==> s[i].migrationTimestamp <= t
    requires forall i :: p <= i < |s| ==> s[i].migrationTimestamp > t
    ensures Above(s, t) == s[p..]
    decreases |s|
  {
    if |s| > 0 {
      var tail := s[1..];
      assert StrictlyAscending(tail) by {
        forall a, b | 0 <= a < b < |tail| ensures tail[a].migrationTimestamp < tail[b].migrationTimestamp {
          assert tail[a] == s[a + 1] && tail[b] == s[b + 1];
        }
      }
      if p > 0 {
        forall i | 0 <= i < p - 1 ensures tail[i].migrationTimestamp <= t { assert tail[i] == s[i + 1]; }
        forall i | p - 1 <= i < |tail| ensures tail[i].migrationTimestamp > t { assert tail[i] == s[i + 1]; }
        AboveAscending(tail, t, p - 1);
        assert tail[p - 1..] == s[p..];
      } else {
        forall i | 0 <= i < |tail| ensures tail[i].migrationTimestamp > t { assert tail[i] == s[i + 1]; }
        AboveAscending(tail, t, 0);
        assert s == [s[0]] + tail;
      }
    }
  }

  /** No entry of `s` has a key above `t`: nothing is selected. */
  lemma {:induction false} AboveNone(s: seq<MigrationData>, t: int)
    requires forall i :: 0 <= i < |s| ==> s[i].migrationTimestamp <= t
    ensures Above(s, t) == []
  {
    if |s| > 0 {
      forall i | 0 <= i < |s| - 1 ensures s[1..][i].migrationTimestamp <= t {
        assert s[1..][i] == s[i + 1];
      }
      AboveNone(s[1..], t);
    }
  }

  /** Raising `latestMigration` from `lo` to `hi` leaves the pending list
      with the entries of the old one whose key is above `hi`, in the same
      order. */
  lemma PendingRaised(folder: string, files: seq<string>, lo: int, hi: int)
    requires lo <= hi
    ensures Pending(folder, files, hi) == Above(Pending(folder, files, lo), hi)
  {
    CollectAbove(folder, files, lo, hi);
    SortAbove(Collect(folder, files, lo), hi);
  }

  /** With distinct keys, raising `latestMigration` to the key of entry
      `p - 1` of the pending list (or leaving it when `p == 0`) leaves the
      pending list from `p` on. */
  lemma PendingAbove(folder: string, files: seq<string>, lo: int, hi: int, p: nat)
    requires lo <= hi
    requires p <= |Pending(folder, files, lo)|
    requires DistinctKeys(Pending(folder, files, lo))
    requires p == 0 ==> hi == lo
    requires p > 0 ==> hi == Pending(folder, files, lo)[p - 1].migrationTimestamp
    ensures Pending(folder, files, hi) == Pending(folder, files, lo)[p..]
  {
    var before := Pending(folder, files, lo);
    PendingRaised(folder, files, lo, hi);
    PendingCorrect(folder, files, lo);
    forall i | 0 <= i < p ensures before[i].migrationTimestamp <= hi {
    }
    forall i | p <= i < |before| ensures before[i].migrationTimestamp > hi {
      assert before[i] in before;
    }
    AboveAscending(before, hi, p);
  }

  /** Raising `latestMigration` to the key of the last pending entry (the
      largest, since the list is sorted) leaves nothing pending. */
  lemma PendingExhausted(folder: string, files: seq<string>, lo: int)
    requires |Pending(folder, files, lo)| > 0
    ensures var before := Pending(folder, files, lo);
      Pending(folder, files, before[|before| - 1].migrationTimestamp) == []
  {
    var before := Pending(folder, files, lo);
    var hi := before[|before| - 1].migrationTimestamp;
    SortByKeySorted(Collect(folder, files, lo));
    PendingSelects(folder, files, lo);
    assert before[|before| - 1] in before;
    PendingRaised(folder, files, lo, hi);
    AboveNone(before, hi);
  }
}
