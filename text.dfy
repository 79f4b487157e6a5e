/** Python string behaviour that the services rely on: `str.isspace`,
    `lower`, `strip`, `split()`, `sep.join`, the `in` substring test,
    `str(n)` for naturals, `[:n]` and first-seen de-duplication.

    Case mapping and digit tests cover ASCII only; whitespace is the full set
    of characters for which Python's `str.isspace` holds. */
module Text {
  import opened Base

  // ---------------------------------------------------------------------
  // Characters

  /** Python `str.isspace` for a single character. */
  predicate IsSpace(c: char) {
    var n := c as int;
    (9 <= n <= 13) || (28 <= n <= 32) || n == 0x85 || n == 0xA0 || n == 0x1680
    || (0x2000 <= n <= 0x200A) || n == 0x2028 || n == 0x2029 || n == 0x202F
    || n == 0x205F || n == 0x3000
  }

  predicate IsDigit(c: char) { '0' <= c <= '9' }
  predicate IsUpper(c: char) { 'A' <= c <= 'Z' }
  predicate IsLowerLetter(c: char) { 'a' <= c <= 'z' }
  predicate IsAlnum(c: char) { IsDigit(c) || IsUpper(c) || IsLowerLetter(c) }

  function LowerChar(c: char): char {
    if IsUpper(c) then (c as int + 32) as char else c
  }

  /** `s.lower()`. */
  function Lower(s: string): (r: string)
    ensures |r| == |s|
    ensures forall k :: 0 <= k < |s| ==> r[k] == LowerChar(s[k])
  {
    seq(|s|, k requires 0 <= k < |s| => LowerChar(s[k]))
  }

  function LowerAll(ss: seq<string>): (r: seq<string>)
    ensures |r| == |ss|
    ensures forall k :: 0 <= k < |ss| ==> r[k] == Lower(ss[k])
  {
    seq(|ss|, k requires 0 <= k < |ss| => Lower(ss[k]))
  }

  function Identity(s: string): string { s }

  predicate NoSpace(w: string) {
    forall k :: 0 <= k < |w| ==> !IsSpace(w[k])
  }

  /** No whitespace at either end, as `strip` leaves a string. */
  predicate Trimmed(s: string) {
    s == [] || (!IsSpace(s[0]) && !IsSpace(s[|s| - 1]))
  }

  // ---------------------------------------------------------------------
  // strip

  function TrimStart(s: string): (r: string)
    ensures |r| <= |s| && r == s[|s| - |r|..]
    ensures r == [] || !IsSpace(r[0])
    ensures forall k :: 0 <= k < |s| - |r| ==> IsSpace(s[k])
  {
    if s != [] && IsSpace(s[0]) then TrimStart(s[1..]) else s
  }

  function TrimEnd(s: string): (r: string)
    ensures |r| <= |s| && r == s[..|r|]
    ensures r == [] || !IsSpace(r[|r| - 1])
    ensures forall k :: |r| <= k < |s| ==> IsSpace(s[k])
  {
    if s != [] && IsSpace(s[|s| - 1]) then TrimEnd(s[..|s| - 1]) else s
  }

  /** `s.strip()`: the longest infix without whitespace at either end,
      obtained by dropping only whitespace. */
  function Strip(s: string): (r: string)
    ensures Trimmed(r)
    ensures |r| <= |s|
  {
    var t := TrimStart(s);
    var r := TrimEnd(t);
    assert r == [] || r[0] == t[0];
    r
  }

  /** Stripping a string without outer whitespace changes nothing, and
      stripping is idempotent. */
  lemma StripTrimmed(s: string)
    requires Trimmed(s)
    ensures Strip(s) == s
  {
  }

  lemma StripIdempotent(s: string)
    ensures Strip(Strip(s)) == Strip(s)
  {
    StripTrimmed(Strip(s));
  }

  // ---------------------------------------------------------------------
  // split() and join

  /** Length of the leading run of non-whitespace characters. */
  function WordLen(s: string): (n: nat)
    ensures n <= |s|
    ensures forall k :: 0 <= k < n ==> !IsSpace(s[k])
    ensures n < |s| ==> IsSpace(s[n])
  {
    if s == [] || IsSpace(s[0]) then 0 else 1 + WordLen(s[1..])
  }

  /** `s.split()`: the maximal runs of non-whitespace characters, in order. */
  function Words(s: string): (ws: seq<string>)
    ensures forall w :: w in ws ==> w != [] && NoSpace(w)
    decreases |s|
  {
    if s == [] then []
    else if IsSpace(s[0]) then Words(s[1..])
    else
      var n := WordLen(s);
      [s[..n]] + Words(s[n..])
  }

  /** `sep.join(ws)`. */
  function Join(sep: string, ws: seq<string>): string {
    if ws == [] then [] else if |ws| == 1 then ws[0] else ws[0] + sep + Join(sep, ws[1..])
  }

  lemma {:induction false} WordLenOfWord(w: string, t: string)
    requires NoSpace(w)
    requires t == [] || IsSpace(t[0])
    ensures WordLen(w + t) == |w|
  {
    if w != [] {
      assert (w + t)[1..] == w[1..] + t;
      WordLenOfWord(w[1..], t);
    }
  }

  /** Splitting a single-space join of words gives the words back. */
  lemma {:induction false} WordsOfJoin(ws: seq<string>)
    requires forall w :: w in ws ==> w != [] && NoSpace(w)
    ensures Words(Join(" ", ws)) == ws
  {
    if ws == [] {
    } else if |ws| == 1 {
      var w := ws[0];
      WordLenOfWord(w, []);
      assert w + [] == w;
      assert w[|w|..] == [];
    } else {
      var w, rest := ws[0], Join(" ", ws[1..]);
      var s := w + " " + rest;
      assert s == w + (" " + rest);
      WordLenOfWord(w, " " + rest);
      assert s[..|w|] == w;
      assert s[|w|..] == " " + rest;
      assert (" " + rest)[1..] == rest;
      assert forall v :: v in ws[1..] ==> v in ws;
      WordsOfJoin(ws[1..]);
    }
  }

  /** Every character of a join is a character of some part or of the
      separator. */
  lemma {:induction false} JoinChars(sep: string, ws: seq<string>, P: char -> bool)
    requires forall k :: 0 <= k < |sep| ==> P(sep[k])
    requires forall w, k :: w in ws && 0 <= k < |w| ==> P(w[k])
    ensures forall k :: 0 <= k < |Join(sep, ws)| ==> P(Join(sep, ws)[k])
  {
    if |ws| > 1 {
      JoinChars(sep, ws[1..], P);
      var j := Join(sep, ws);
      var head, tail := ws[0] + sep, Join(sep, ws[1..]);
      assert j == head + tail;
      forall k | 0 <= k < |j| ensures P(j[k]) {
        if k < |ws[0]| {
          assert j[k] == ws[0][k];
        } else if k < |head| {
          assert j[k] == sep[k - |ws[0]|];
        } else {
          assert j[k] == tail[k - |head|];
        }
      }
    } else if |ws| == 1 {
      assert ws[0] in ws;
    }
  }

  /** A single-space join of non-empty words has no outer whitespace and
      never two spaces in a row. */
  lemma {:induction false} JoinWordsShape(ws: seq<string>)
    requires forall w :: w in ws ==> w != [] && NoSpace(w)
    ensures Trimmed(Join(" ", ws))
    ensures forall k :: 0 <= k < |Join(" ", ws)| - 1 ==>
              !(Join(" ", ws)[k] == ' ' && Join(" ", ws)[k + 1] == ' ')
  {
    if |ws| == 1 {
      assert ws[0] in ws;
    } else if |ws| > 1 {
      var w := ws[0];
      assert w in ws;
      assert forall v :: v in ws[1..] ==> v in ws;
      JoinWordsShape(ws[1..]);
      var tail := Join(" ", ws[1..]);
      assert ws[1] in ws[1..];
      assert tail != [] by {
        if |ws[1..]| == 1 { } else { assert tail[..|ws[1]|] == ws[1]; }
      }
      var j := Join(" ", ws);
      assert j == w + " " + tail;
      forall k | 0 <= k < |j| - 1 ensures !(j[k] == ' ' && j[k + 1] == ' ') {
        if k < |w| {
          assert j[k] == w[k];
        } else if k == |w| {
          assert j[k + 1] == tail[0];
        } else {
          assert j[k] == tail[k - |w| - 1] && j[k + 1] == tail[k - |w|];
        }
      }
    }
  }

  // ---------------------------------------------------------------------
  // Substrings and affixes

  /** Python's `needle in hay` for strings. */
  predicate IsSubstring(needle: string, hay: string) {
    exists i | 0 <= i <= |hay| - |needle| :: OccursAt(needle, hay, i)
  }

  predicate OccursAt(needle: string, hay: string, i: int) {
    0 <= i <= |hay| - |needle| && hay[i..i + |needle|] == needle
  }

  lemma SubstringOfConcat(a: string, s: string, b: string)
    ensures IsSubstring(s, a + s + b)
  {
    var h := a + s + b;
    assert h[|a|..|a| + |s|] == s;
    assert OccursAt(s, h, |a|);
  }

  /** Every part of a join occurs in it. */
  lemma {:induction false} PartOfJoin(sep: string, ws: seq<string>, k: nat)
    requires k < |ws|
    ensures IsSubstring(ws[k], Join(sep, ws))
  {
    if |ws| == 1 {
      SubstringOfConcat([], ws[0], []);
      assert [] + ws[0] + [] == ws[0];
    } else if k == 0 {
      SubstringOfConcat([], ws[0], sep + Join(sep, ws[1..]));
      assert [] + ws[0] + (sep + Join(sep, ws[1..])) == Join(sep, ws);
    } else {
      PartOfJoin(sep, ws[1..], k - 1);
      var tail := Join(sep, ws[1..]);
      assert ws[1..][k - 1] == ws[k];
      var i :| 0 <= i <= |tail| - |ws[k]| && OccursAt(ws[k], tail, i);
      var pre := ws[0] + sep;
      assert Join(sep, ws) == pre + tail;
      assert (pre + tail)[|pre| + i..|pre| + i + |ws[k]|] == tail[i..i + |ws[k]|];
      assert OccursAt(ws[k], Join(sep, ws), |pre| + i);
    }
  }

  /** A substring of a suffix is a substring of the whole. */
  lemma SubstringAfterPrefix(needle: string, pre: string, hay: string)
    requires IsSubstring(needle, hay)
    ensures IsSubstring(needle, pre + hay)
  {
    var i :| 0 <= i <= |hay| - |needle| && OccursAt(needle, hay, i);
    assert (pre + hay)[|pre| + i..|pre| + i + |needle|] == hay[i..i + |needle|];
    assert OccursAt(needle, pre + hay, |pre| + i);
  }

  predicate StartsWith(s: string, p: string) { |p| <= |s| && s[..|p|] == p }

  predicate EndsWith(s: string, p: string) { |p| <= |s| && s[|s| - |p|..] == p }

  /** Python's `s[:n]` for n >= 0. */
  function Take<T>(s: seq<T>, n: nat): (r: seq<T>)
    ensures |r| == Min(n, |s|)
    ensures r == s[..|r|]
  {
    if n <= |s| then s[..n] else s
  }

  // ---------------------------------------------------------------------
  // str(n) for naturals

  function DigitChar(d: nat): (c: char)
    requires d < 10
    ensures IsDigit(c)
  {
    ('0' as int + d) as char
  }

  predicate AllDigits(s: string) { forall k :: 0 <= k < |s| ==> IsDigit(s[k]) }

  /** Python `str(n)`: decimal digits, most significant first, no leading zero. */
  function NatToString(n: nat): (s: string)
    ensures |s| >= 1 && AllDigits(s)
  {
    if n < 10 then [DigitChar(n)] else NatToString(n / 10) + [DigitChar(n % 10)]
  }

  /** The value of a string of decimal digits. */
  function DecimalValue(s: string): nat
    requires AllDigits(s)
  {
    if s == [] then 0 else 10 * DecimalValue(s[..|s| - 1]) + (s[|s| - 1] as int - '0' as int)
  }

  /** Reading back what `str(n)` wrote gives n. */
  lemma {:induction false} DecimalRoundTrip(n: nat)
    ensures DecimalValue(NatToString(n)) == n
  {
    if n >= 10 {
      DecimalRoundTrip(n / 10);
      var s := NatToString(n);
      assert s[..|s| - 1] == NatToString(n / 10);
    }
  }

  lemma NatToStringInjective(m: nat, n: nat)
    requires NatToString(m) == NatToString(n)
    ensures m == n
  {
    DecimalRoundTrip(m);
    DecimalRoundTrip(n);
  }

  // ---------------------------------------------------------------------
  // First-seen de-duplication under a key

  /** Index of the first element of s whose key is kv, or |s| if none. */
  function FirstIndexOfKey(s: seq<string>, key: string -> string, kv: string): (i: nat)
    ensures i <= |s|
    ensures i < |s| ==> key(s[i]) == kv
    ensures forall j :: 0 <= j < i ==> key(s[j]) != kv
  {
    if s == [] then 0
    else if key(s[0]) == kv then 0
    else 1 + FirstIndexOfKey(s[1..], key, kv)
  }

  function KeySet(r: seq<string>, key: string -> string): set<string> {
    set k | 0 <= k < |r| :: key(r[k])
  }

  /** Keep each element whose key is not yet in `seen`, adding its key. */
  function DedupFrom(s: seq<string>, key: string -> string, seen: set<string>): seq<string> {
    if s == [] then []
    else if key(s[0]) in seen then DedupFrom(s[1..], key, seen)
    else [s[0]] + DedupFrom(s[1..], key, seen + {key(s[0])})
  }

  /** The first element of each key class, in the order of first occurrence
      (`dict.fromkeys` with the identity key, the `seen`-set loop with
      `lower`). */
  function DedupBy(s: seq<string>, key: string -> string): seq<string> {
    DedupFrom(s, key, {})
  }

  /** What DedupFrom keeps: only first occurrences of keys not in `seen`, in
      increasing order of first occurrence, and every key of s outside
      `seen`. */
  lemma DedupFromSpec(s: seq<string>, key: string -> string, seen: set<string>)
    ensures var r := DedupFrom(s, key, seen);
      && |r| <= |s|
      && (forall k :: 0 <= k < |r| ==> key(r[k]) !in seen)
      && (forall k :: 0 <= k < |r| ==>
            FirstIndexOfKey(s, key, key(r[k])) < |s| && s[FirstIndexOfKey(s, key, key(r[k]))] == r[k])
      && (forall i, j :: 0 <= i < j < |r| ==>
            FirstIndexOfKey(s, key, key(r[i])) < FirstIndexOfKey(s, key, key(r[j])))
      && (forall i :: 0 <= i < |s| ==> key(s[i]) in seen || key(s[i]) in KeySet(DedupFrom(s, key, seen), key))
  {
    DedupFromFresh(s, key, seen);
    DedupFromFirst(s, key, seen);
    DedupFromOrder(s, key, seen);
    DedupFromComplete(s, key, seen);
  }

  /** Keys kept are new, and nothing is added. */
  lemma {:induction false} DedupFromFresh(s: seq<string>, key: string -> string, seen: set<string>)
    ensures var r := DedupFrom(s, key, seen);
      |r| <= |s| && forall k :: 0 <= k < |r| ==> key(r[k]) !in seen
  {
    if s != [] {
      if key(s[0]) in seen {
        DedupFromFresh(s[1..], key, seen);
      } else {
        DedupFromFresh(s[1..], key, seen + {key(s[0])});
        var t := DedupFrom(s[1..], key, seen + {key(s[0])});
        assert DedupFrom(s, key, seen) == [s[0]] + t;
      }
    }
  }

  /** Skipping a head whose key differs moves the first index by one. */
  lemma FirstIndexShift(s: seq<string>, key: string -> string, kv: string)
    requires s != [] && key(s[0]) != kv
    ensures FirstIndexOfKey(s, key, kv) == 1 + FirstIndexOfKey(s[1..], key, kv)
  {
  }

  /** Each kept element is the first element of s with its key. */
  lemma {:induction false} DedupFromFirst(s: seq<string>, key: string -> string, seen: set<string>)
    ensures var r := DedupFrom(s, key, seen);
      forall k :: 0 <= k < |r| ==>
        FirstIndexOfKey(s, key, key(r[k])) < |s| && s[FirstIndexOfKey(s, key, key(r[k]))] == r[k]
  {
    if s != [] {
      var x := s[0];
      var seen' := if key(x) in seen then seen else seen + {key(x)};
      var t := DedupFrom(s[1..], key, seen');
      DedupFromFirst(s[1..], key, seen');
      DedupFromFresh(s[1..], key, seen');
      var r := DedupFrom(s, key, seen);
      var d := if key(x) in seen then 0 else 1;
      assert r == (if key(x) in seen then [] else [x]) + t;
      forall k | d <= k < |r|
        ensures FirstIndexOfKey(s, key, key(r[k])) < |s| && s[FirstIndexOfKey(s, key, key(r[k]))] == r[k]
      {
        assert r[k] == t[k - d];
        FirstIndexShift(s, key, key(t[k - d]));
        assert s[1 + FirstIndexOfKey(s[1..], key, key(t[k - d]))] == s[1..][FirstIndexOfKey(s[1..], key, key(t[k - d]))];
      }
    }
  }

  /** Kept elements appear in the order of their first occurrences. */
  lemma {:induction false} DedupFromOrder(s: seq<string>, key: string -> string, seen: set<string>)
    ensures var r := DedupFrom(s, key, seen);
      forall i, j :: 0 <= i < j < |r| ==>
        FirstIndexOfKey(s, key, key(r[i])) < FirstIndexOfKey(s, key, key(r[j]))
  {
    if s != [] {
      var x := s[0];
      var seen' := if key(x) in seen then seen else seen + {key(x)};
      var t := DedupFrom(s[1..], key, seen');
      DedupFromOrder(s[1..], key, seen');
      DedupFromFresh(s[1..], key, seen');
      var r := DedupFrom(s, key, seen);
      var d := if key(x) in seen then 0 else 1;
      assert r == (if key(x) in seen then [] else [x]) + t;
      forall k | d <= k < |r|
        ensures FirstIndexOfKey(s, key, key(r[k])) == 1 + FirstIndexOfKey(s[1..], key, key(t[k - d]))
      {
        assert r[k] == t[k - d];
        FirstIndexShift(s, key, key(t[k - d]));
      }
      forall i, j | 0 <= i < j < |r|
        ensures FirstIndexOfKey(s, key, key(r[i])) < FirstIndexOfKey(s, key, key(r[j]))
      {
        if i < d {
          assert r[i] == x;
        } else {
          assert FirstIndexOfKey(s[1..], key, key(t[i - d])) < FirstIndexOfKey(s[1..], key, key(t[j - d]));
        }
      }
    }
  }

  /** Every key of s outside `seen` is kept. */
  lemma {:induction false} DedupFromComplete(s: seq<string>, key: string -> string, seen: set<string>)
    ensures forall i :: 0 <= i < |s| ==> key(s[i]) in seen || key(s[i]) in KeySet(DedupFrom(s, key, seen), key)
  {
    if s != [] {
      var x := s[0];
      var seen' := if key(x) in seen then seen else seen + {key(x)};
      var t := DedupFrom(s[1..], key, seen');
      DedupFromComplete(s[1..], key, seen');
      var r := DedupFrom(s, key, seen);
      var d := if key(x) in seen then 0 else 1;
      assert r == (if key(x) in seen then [] else [x]) + t;
      assert key(x) in seen || key(r[0]) in KeySet(r, key);
      forall i | 0 < i < |s| ensures key(s[i]) in seen || key(s[i]) in KeySet(r, key) {
        assert s[i] == s[1..][i - 1];
        if key(s[i]) in KeySet(t, key) {
          var k :| 0 <= k < |t| && key(t[k]) == key(s[i]);
          assert r[k + d] == t[k];
        }
      }
    }
  }

  /** DedupBy never keeps two elements with the same key, keeps exactly the
      first occurrence of each key, preserves the order of first occurrence,
      and loses no key. */
  lemma DedupBySpec(s: seq<string>, key: string -> string)
    ensures var r := DedupBy(s, key);
      && |r| <= |s|
      && (forall i, j :: 0 <= i < j < |r| ==> key(r[i]) != key(r[j]))
      && (forall k :: 0 <= k < |r| ==>
            FirstIndexOfKey(s, key, key(r[k])) < |s| && s[FirstIndexOfKey(s, key, key(r[k]))] == r[k])
      && (forall i, j :: 0 <= i < j < |r| ==>
            FirstIndexOfKey(s, key, key(r[i])) < FirstIndexOfKey(s, key, key(r[j])))
      && KeySet(r, key) == KeySet(s, key)
  {
    DedupFromSpec(s, key, {});
    var r := DedupBy(s, key);
    forall v | v in KeySet(r, key) ensures v in KeySet(s, key) {
      var k :| 0 <= k < |r| && key(r[k]) == v;
      var i := FirstIndexOfKey(s, key, v);
      assert key(s[i]) == v;
    }
  }

  /** A sequence whose keys are pairwise different has as many keys as
      elements. */
  lemma {:induction false} KeySetSize(r: seq<string>, key: string -> string)
    requires forall i, j :: 0 <= i < j < |r| ==> key(r[i]) != key(r[j])
    ensures |KeySet(r, key)| == |r|
  {
    if r != [] {
      var init := r[..|r| - 1];
      KeySetSize(init, key);
      KeySetSnoc(r, key);
      KeySetFresh(r, key);
    }
  }

  /** The keys of a non-empty sequence: those of all but the last element,
      plus the last one's. */
  lemma KeySetSnoc(r: seq<string>, key: string -> string)
    requires r != []
    ensures KeySet(r, key) == KeySet(r[..|r| - 1], key) + {key(r[|r| - 1])}
  {
    var init := r[..|r| - 1];
    forall v | v in KeySet(r, key) ensures v in KeySet(init, key) + {key(r[|r| - 1])} {
      var k :| 0 <= k < |r| && key(r[k]) == v;
      if k < |r| - 1 { assert init[k] == r[k]; }
    }
    forall v | v in KeySet(init, key) ensures v in KeySet(r, key) {
      var k :| 0 <= k < |init| && key(init[k]) == v;
      assert r[k] == init[k];
    }
  }

  lemma KeySetFresh(r: seq<string>, key: string -> string)
    requires r != []
    requires forall i, j :: 0 <= i < j < |r| ==> key(r[i]) != key(r[j])
    ensures key(r[|r| - 1]) !in KeySet(r[..|r| - 1], key)
  {
    var init := r[..|r| - 1];
    forall k | 0 <= k < |init| ensures key(init[k]) != key(r[|r| - 1]) {
      assert init[k] == r[k];
    }
  }
}
