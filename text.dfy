/**
 * The string primitives the backend and the client rely on, written out:
 * Go's `strings.Fields`, `strings.Join`, `strings.Split` (one-character
 * separator), `strings.TrimSpace`, `strings.HasPrefix`/`TrimPrefix`, and
 * decimal formatting of integers (`%d`, `String(n)`).
 */
module Text {

  /** Go's `unicode.IsSpace`: the ASCII spaces, NEL, NBSP and the other Unicode White_Space runes. */
  predicate IsSpace(c: char) {
    c == ' ' || c == '\t' || c == '\n' || c == '\U{000B}' || c == '\U{000C}' || c == '\r'
    || c == '\U{0085}' || c == '\U{00A0}' || c == '\U{1680}'
    || ('\U{2000}' <= c <= '\U{200A}')
    || c == '\U{2028}' || c == '\U{2029}' || c == '\U{202F}' || c == '\U{205F}' || c == '\U{3000}'
  }

  /** A field of `strings.Fields`: non-empty and free of white space. */
  predicate IsWord(w: string) {
    |w| > 0 && forall i :: 0 <= i < |w| ==> !IsSpace(w[i])
  }

  /** The longest prefix of `s` that holds no white space. */
  function Word(s: string): (w: string)
    ensures |w| <= |s| && w == s[..|w|]
    ensures forall i :: 0 <= i < |w| ==> !IsSpace(w[i])
    ensures |w| < |s| ==> IsSpace(s[|w|])
  {
    if s == [] || IsSpace(s[0]) then [] else [s[0]] + Word(s[1..])
  }

  /** `strings.Fields`: the maximal runs of non-space characters, in order. */
  function Fields(s: string): (r: seq<string>)
    ensures forall i :: 0 <= i < |r| ==> IsWord(r[i])
    decreases |s|
  {
    if s == [] then []
    else if IsSpace(s[0]) then Fields(s[1..])
    else
      var w := Word(s);
      [w] + Fields(s[|w|..])
  }

  /** `strings.Join(ws, sep)`, for any element type. */
  function JoinWith<T>(ws: seq<seq<T>>, sep: seq<T>): seq<T> {
    if |ws| == 0 then []
    else if |ws| == 1 then ws[0]
    else ws[0] + sep + JoinWith(ws[1..], sep)
  }

  /** `strings.Split(s, string(c))`: never empty, `[""]` for the empty string. */
  function Split(s: string, c: char): (r: seq<string>)
    ensures |r| >= 1
    ensures forall i :: 0 <= i < |r| ==> c !in r[i]
  {
    if s == [] then [[]]
    else if s[0] == c then [[]] + Split(s[1..], c)
    else
      var rest := Split(s[1..], c);
      [[s[0]] + rest[0]] + rest[1..]
  }

  function TrimLeft(s: string): (r: string)
    ensures r == [] || !IsSpace(r[0])
  {
    if s != [] && IsSpace(s[0]) then TrimLeft(s[1..]) else s
  }

  function TrimRight(s: string): (r: string)
    ensures r == [] || !IsSpace(r[|r| - 1])
    ensures |r| <= |s| && r == s[..|r|]
  {
    if s != [] && IsSpace(s[|s| - 1]) then TrimRight(s[..|s| - 1]) else s
  }

  /** `strings.TrimSpace`. */
  function TrimSpace(s: string): (r: string)
    ensures r == [] || (!IsSpace(r[0]) && !IsSpace(r[|r| - 1]))
  {
    TrimRight(TrimLeft(s))
  }

  predicate HasPrefix(s: string, p: string) {
    |p| <= |s| && s[..|p|] == p
  }

  /** `strings.TrimPrefix`: `s` unchanged when `p` is not a prefix. */
  function TrimPrefix(s: string, p: string): (r: string)
    ensures HasPrefix(s, p) ==> p + r == s
    ensures !HasPrefix(s, p) ==> r == s
    ensures |p| > 0 ==> (r == s <==> !HasPrefix(s, p))
  {
    assert HasPrefix(s, p) ==> s[..|p|] + s[|p|..] == s;
    if HasPrefix(s, p) then s[|p|..] else s
  }

  function Digit(d: nat): (c: char)
    requires d < 10
    ensures '0' <= c <= '9'
  {
    ('0' as int + d) as char
  }

  /** Decimal notation of a natural number, without leading zeros. */
  function NatToString(n: nat): (r: string)
    ensures |r| >= 1
    ensures forall i :: 0 <= i < |r| ==> '0' <= r[i] <= '9'
  {
    if n < 10 then [Digit(n)] else NatToString(n / 10) + [Digit(n % 10)]
  }

  /** Decimal notation of an integer, with a leading '-' when negative. */
  function IntToString(n: int): string {
    if n < 0 then "-" + NatToString(-n) else NatToString(n)
  }

  /**
   * A normalised text: every white-space character is a single ' ' that
   * stands between two non-space characters. So there is no leading or
   * trailing white space and words are separated by exactly one space.
   */
  predicate Normalized(t: string) {
    forall i :: 0 <= i < |t| && IsSpace(t[i]) ==>
      t[i] == ' ' && 0 < i < |t| - 1 && !IsSpace(t[i - 1]) && !IsSpace(t[i + 1])
  }

  // ---------------------------------------------------------------------
  // Lemmas

  lemma {:induction false} WordOfConcat(w: string, rest: string)
    requires forall i :: 0 <= i < |w| ==> !IsSpace(w[i])
    requires rest == [] || IsSpace(rest[0])
    ensures Word(w + rest) == w
  {
    if w == [] {
    } else {
      assert (w + rest)[1..] == w[1..] + rest;
      WordOfConcat(w[1..], rest);
    }
  }

  /** Joining words with single spaces gives a normalised text. */
  lemma {:induction false} JoinNormalized(ws: seq<string>)
    requires forall i :: 0 <= i < |ws| ==> IsWord(ws[i])
    ensures Normalized(JoinWith(ws, " "))
    ensures |ws| > 0 ==> |JoinWith(ws, " ")| > 0
  {
    if |ws| <= 1 {
    } else {
      var t := JoinWith(ws[1..], " ");
      JoinNormalized(ws[1..]);
      var j := ws[0] + " " + t;
      assert JoinWith(ws, " ") == j;
      assert !IsSpace(t[0]);
      assert forall k :: 0 <= k < |ws[0]| ==> j[k] == ws[0][k];
      forall i | 0 <= i < |j| && IsSpace(j[i])
        ensures j[i] == ' ' && 0 < i < |j| - 1 && !IsSpace(j[i - 1]) && !IsSpace(j[i + 1])
      {
        var n := |ws[0]|;
        if i == n {
          assert j[i - 1] == ws[0][n - 1];
          assert j[i + 1] == t[0];
        } else {
          assert j[i] == t[i - n - 1];
          assert i - n - 1 > 0;
          assert j[i - 1] == t[i - n - 2];
          assert j[i + 1] == t[i - n];
        }
      }
    }
  }

  /** `strings.Fields` undoes a single-space join of words. */
  lemma {:induction false} FieldsOfJoin(ws: seq<string>)
    requires forall i :: 0 <= i < |ws| ==> IsWord(ws[i])
    ensures Fields(JoinWith(ws, " ")) == ws
  {
    if |ws| == 0 {
    } else if |ws| == 1 {
      WordOfConcat(ws[0], []);
      assert ws[0] + [] == ws[0];
      assert ws[0][|ws[0]|..] == [];
    } else {
      var t := JoinWith(ws[1..], " ");
      var j := ws[0] + (" " + t);
      assert JoinWith(ws, " ") == j;
      WordOfConcat(ws[0], " " + t);
      assert j[|ws[0]|..] == " " + t;
      assert (" " + t)[1..] == t;
      FieldsOfJoin(ws[1..]);
    }
  }

  /** A normalised text is its own `TrimSpace`. */
  lemma NormalizedTrim(t: string)
    requires Normalized(t)
    ensures TrimSpace(t) == t
  {
    if t != [] {
      assert !IsSpace(t[0]);
      assert !IsSpace(t[|t| - 1]);
    }
  }

  /** Every character of a field is a character of the input. */
  lemma {:induction false} FieldsKeep(s: string, p: char -> bool)
    requires forall k :: 0 <= k < |s| ==> p(s[k])
    ensures forall i, k :: 0 <= i < |Fields(s)| && 0 <= k < |Fields(s)[i]| ==> p(Fields(s)[i][k])
    decreases |s|
  {
    if s == [] {
    } else if IsSpace(s[0]) {
      FieldsKeep(s[1..], p);
    } else {
      var w := Word(s);
      FieldsKeep(s[|w|..], p);
      forall i, k | 0 <= i < |Fields(s)| && 0 <= k < |Fields(s)[i]| ensures p(Fields(s)[i][k]) {
        if i == 0 {
          assert Fields(s)[0][k] == s[k];
        } else {
          assert Fields(s)[i] == Fields(s[|w|..])[i - 1];
        }
      }
    }
  }

  /** Every character of a join comes from a part or from the separator. */
  lemma {:induction false} JoinKeep(ws: seq<string>, sep: string, p: char -> bool)
    requires forall i, k :: 0 <= i < |ws| && 0 <= k < |ws[i]| ==> p(ws[i][k])
    requires forall k :: 0 <= k < |sep| ==> p(sep[k])
    ensures forall k :: 0 <= k < |JoinWith(ws, sep)| ==> p(JoinWith(ws, sep)[k])
  {
    if |ws| <= 1 {
      if |ws| == 1 {
        assert forall k :: 0 <= k < |ws[0]| ==> p(ws[0][k]);
      }
    } else {
      JoinKeep(ws[1..], sep, p);
      var t := JoinWith(ws[1..], sep);
      var j := ws[0] + sep + t;
      forall k | 0 <= k < |j| ensures p(j[k]) {
        if k < |ws[0]| {
          assert j[k] == ws[0][k];
        } else if k < |ws[0]| + |sep| {
          assert j[k] == sep[k - |ws[0]|];
        } else {
          assert j[k] == t[k - |ws[0]| - |sep|];
        }
      }
    }
  }

  lemma {:induction false} SplitNoSep(s: string, c: char)
    requires c !in s
    ensures Split(s, c) == [s]
  {
    if s != [] {
      SplitNoSep(s[1..], c);
      assert [s[0]] + s[1..] == s;
    }
  }

  lemma {:induction false} SplitAfter(t: string, c: char, x: string)
    requires c !in t
    ensures Split(t + [c] + x, c) == [t] + Split(x, c)
  {
    if t == [] {
      assert t + [c] + x == [c] + x;
      assert ([c] + x)[1..] == x;
    } else {
      assert (t + [c] + x)[1..] == t[1..] + [c] + x;
      SplitAfter(t[1..], c, x);
      assert [t[0]] + t[1..] == t;
    }
  }

  /** Splitting a join of separator-free parts gives the parts back. */
  lemma {:induction false} SplitJoin(ts: seq<string>, c: char)
    requires |ts| >= 1
    requires forall i :: 0 <= i < |ts| ==> c !in ts[i]
    ensures Split(JoinWith(ts, [c]), c) == ts
  {
    if |ts| == 1 {
      SplitNoSep(ts[0], c);
    } else {
      SplitJoin(ts[1..], c);
      SplitAfter(ts[0], c, JoinWith(ts[1..], [c]));
      assert [ts[0]] + ts[1..] == ts;
    }
  }

  /** Joining the parts of a split gives the input back. */
  lemma {:induction false} JoinSplit(s: string, c: char)
    ensures JoinWith(Split(s, c), [c]) == s
  {
    if s == [] {
    } else if s[0] == c {
      JoinSplit(s[1..], c);
      var rest := Split(s[1..], c);
      assert Split(s, c) == [[]] + rest;
      assert JoinWith([[]] + rest, [c]) == [] + [c] + JoinWith(rest, [c]);
      assert [c] + s[1..] == s;
    } else {
      JoinSplit(s[1..], c);
      var rest := Split(s[1..], c);
      var head := [s[0]] + rest[0];
      var r := [head] + rest[1..];
      assert Split(s, c) == r;
      if |rest| == 1 {
        assert JoinWith(r, [c]) == head;
        assert JoinWith(rest, [c]) == rest[0];
      } else {
        var tail := JoinWith(rest[1..], [c]);
        assert r[1..] == rest[1..];
        assert JoinWith(r, [c]) == head + [c] + tail;
        assert JoinWith(rest, [c]) == rest[0] + [c] + tail;
        assert head + [c] + tail == [s[0]] + (rest[0] + [c] + tail);
      }
      assert [s[0]] + s[1..] == s;
    }
  }

  /** Joining one more part appends the separator and the part. */
  lemma {:induction false} JoinSnoc<T>(ws: seq<seq<T>>, sep: seq<T>, w: seq<T>)
    requires |ws| >= 1
    ensures JoinWith(ws + [w], sep) == JoinWith(ws, sep) + sep + w
  {
    if |ws| == 1 {
      assert ws + [w] == [ws[0], w];
    } else {
      assert (ws + [w])[1..] == ws[1..] + [w];
      JoinSnoc(ws[1..], sep, w);
    }
  }

  /** For one decimal digit, `rune('0' + d)` is the decimal notation of `d`. */
  lemma DigitIsDecimal(d: nat)
    requires d < 10
    ensures [('0' as int + d) as char] == NatToString(d)
  {
  }
}
