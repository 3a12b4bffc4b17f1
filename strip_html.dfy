/**
 * `stripHTML` of the feed ingester (backend/pkg/rss/rss.go): a one-pass
 * scan that drops everything between '<' and the next '>', followed by
 * white-space collapsing with `strings.Fields`/`Join` and `TrimSpace`.
 */
module StripHtml {
  import opened Text

  predicate NoAngle(t: string) {
    forall k :: 0 <= k < |t| ==> t[k] != '<' && t[k] != '>'
  }

  /**
   * The characters the scan keeps, read from the front: `inTag` is the
   * scanner's flag. '<' enters a tag, '>' leaves it (a stray '>' is simply
   * dropped), and any other character is kept only outside a tag.
   */
  function Untagged(s: string, inTag: bool): (r: string)
    ensures NoAngle(r)
    ensures |r| <= |s|
  {
    if s == [] then []
    else if s[0] == '<' then Untagged(s[1..], true)
    else if s[0] == '>' then Untagged(s[1..], false)
    else if inTag then Untagged(s[1..], true)
    else [s[0]] + Untagged(s[1..], false)
  }

  /** What `stripHTML` returns for `s`. */
  function Stripped(s: string): string {
    TrimSpace(JoinWith(Fields(Untagged(s, false)), " "))
  }

  /** `stripHTML`: the rune loop with its `inTag` flag, then the white-space collapse. */
  method StripHTML(s: string) returns (r: string)
    ensures r == Stripped(s)
    ensures NoAngle(r) && Normalized(r)
  {
    var kept: string := [];
    var inTag := false;
    var i := 0;
    while i < |s|
      invariant 0 <= i <= |s|
      invariant kept + Untagged(s[i..], inTag) == Untagged(s, false)
    {
      assert s[i..][1..] == s[i + 1..];
      var c := s[i];
      if c == '<' {
        inTag := true;
      } else if c == '>' {
        inTag := false;
      } else if !inTag {
        kept := kept + [c];
      }
      i := i + 1;
    }
    assert s[|s|..] == [];
    var text := JoinWith(Fields(kept), " ");
    r := TrimSpace(text);
    assert kept == Untagged(s, false);
    StrippedShape(s);
  }

  // ---------------------------------------------------------------------
  // Lemmas

  /** Text that holds no angle bracket passes the scan unchanged. */
  lemma {:induction false} PlainTextKept(x: string)
    requires NoAngle(x)
    ensures Untagged(x, false) == x
  {
    if x != [] {
      PlainTextKept(x[1..]);
      assert [x[0]] + x[1..] == x;
    }
  }

  /** Text outside any tag is kept in order ahead of whatever the rest yields. */
  lemma {:induction false} OutsideKept(x: string, rest: string)
    requires NoAngle(x)
    ensures Untagged(x + rest, false) == x + Untagged(rest, false)
  {
    if x == [] {
      assert x + rest == rest;
    } else {
      assert (x + rest)[0] == x[0];
      assert (x + rest)[1..] == x[1..] + rest;
      OutsideKept(x[1..], rest);
      assert x == [x[0]] + x[1..];
    }
  }

  /** Inside a tag nothing is kept up to the next '>'. */
  lemma {:induction false} InsideDropped(body: string, rest: string)
    requires '>' !in body
    ensures Untagged(body + rest, true) == Untagged(rest, true)
  {
    if body == [] {
      assert body + rest == rest;
    } else {
      assert (body + rest)[0] == body[0];
      assert (body + rest)[1..] == body[1..] + rest;
      InsideDropped(body[1..], rest);
    }
  }

  /** A complete tag `<body>` disappears and the scan goes on outside a tag. */
  lemma TagDropped(body: string, rest: string)
    requires '>' !in body
    ensures Untagged("<" + body + ">" + rest, false) == Untagged(rest, false)
  {
    assert ("<" + body + ">" + rest)[1..] == body + (">" + rest);
    InsideDropped(body, ">" + rest);
    assert (">" + rest)[1..] == rest;
  }

  /** An unclosed '<' drops the rest of the input. */
  lemma UnclosedTagDropsRest(before: string, after: string)
    requires NoAngle(before) && '>' !in after
    ensures Untagged(before + "<" + after, false) == before
  {
    assert before + "<" + after == before + ("<" + after);
    OutsideKept(before, "<" + after);
    assert ("<" + after)[1..] == after;
    InsideDropped(after, []);
    assert after + [] == after;
  }

  /**
   * The collapse of a scanned text: it is its own `TrimSpace`, it is
   * normalised, it holds no angle bracket and its words are the words of
   * the scanned text.
   */
  lemma StrippedShape(s: string)
    ensures var ws := Fields(Untagged(s, false));
      && Stripped(s) == JoinWith(ws, " ")
      && Normalized(Stripped(s))
      && NoAngle(Stripped(s))
      && Fields(Stripped(s)) == ws
  {
    var u := Untagged(s, false);
    var ws := Fields(u);
    var x := JoinWith(ws, " ");
    JoinNormalized(ws);
    NormalizedTrim(x);
    var p := (c: char) => c != '<' && c != '>';
    FieldsKeep(u, p);
    JoinKeep(ws, " ", p);
    FieldsOfJoin(ws);
  }

  /** `stripHTML` is idempotent. */
  lemma StripIdempotent(s: string)
    ensures Stripped(Stripped(s)) == Stripped(s)
  {
    var x := Stripped(s);
    StrippedShape(s);
    PlainTextKept(x);
    NormalizedTrim(x);
  }
}
