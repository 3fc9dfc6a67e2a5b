/** The string operations of Go's strings package that the models need: TrimSpace, Trim, Split and Join
    with a one-character separator. Names and keys are stored as one separated text, so what matters is
    when reading such a text back gives the list that was written. */
module Text {

  /** Unicode's White_Space, as unicode.IsSpace. */
  predicate IsSpace(c: char) {
    var n := c as int;
    9 <= n <= 13 || n == 0x20 || n == 0x85 || n == 0xA0 || n == 0x1680 || 0x2000 <= n <= 0x200A ||
    n == 0x2028 || n == 0x2029 || n == 0x202F || n == 0x205F || n == 0x3000
  }

  function TrimLeft(s: string, p: char -> bool): string {
    if s != [] && p(s[0]) then TrimLeft(s[1..], p) else s
  }

  function TrimRight(s: string, p: char -> bool): string {
    if s != [] && p(s[|s| - 1]) then TrimRight(s[..|s| - 1], p) else s
  }

  /** s without the leading and trailing characters that satisfy p. */
  function Trim(s: string, p: char -> bool): string {
    TrimRight(TrimLeft(s, p), p)
  }

  lemma {:induction false} TrimLeftMeaning(s: string, p: char -> bool)
    ensures var r := TrimLeft(s, p);
      && (r == [] || !p(r[0]))
      && |r| <= |s| && s[|s| - |r|..] == r
      && (forall i :: 0 <= i < |s| - |r| ==> p(s[i]))
  {
    if s != [] && p(s[0]) {
      TrimLeftMeaning(s[1..], p);
    }
  }

  lemma {:induction false} TrimRightMeaning(s: string, p: char -> bool)
    ensures var r := TrimRight(s, p);
      && (r == [] || !p(r[|r| - 1]))
      && r <= s
      && (forall i :: |r| <= i < |s| ==> p(s[i]))
  {
    if s != [] && p(s[|s| - 1]) {
      TrimRightMeaning(s[..|s| - 1], p);
    }
  }

  /** r is s from i to j, everything outside satisfies p, and r neither begins nor ends with such a character. */
  predicate IsTrimmed(s: string, p: char -> bool, r: string, i: nat, j: nat) {
    && i <= j <= |s| && r == s[i..j]
    && (forall k :: 0 <= k < i ==> p(s[k])) && (forall k :: j <= k < |s| ==> p(s[k]))
    && (r == [] || (!p(r[0]) && !p(r[|r| - 1])))
  }

  /** Trimming takes away exactly the longest prefix and the longest suffix of characters that satisfy p. */
  lemma {:induction false} TrimMeaning(s: string, p: char -> bool)
    ensures exists i, j :: IsTrimmed(s, p, Trim(s, p), i, j)
    ensures forall c :: c in Trim(s, p) ==> c in s
  {
    var l, r := TrimLeft(s, p), Trim(s, p);
    TrimLeftMeaning(s, p);
    TrimRightMeaning(l, p);
    var i := |s| - |l|;
    forall k | i + |r| <= k < |s| ensures p(s[k]) {
      assert s[k] == l[k - i];
    }
    assert r == s[i..i + |r|];
    assert IsTrimmed(s, p, r, i, i + |r|);
  }

  function TrimSpace(s: string): string {
    Trim(s, IsSpace)
  }

  /** A text that does not begin or end with a trimmed character is left alone. */
  lemma {:induction false} TrimFixed(s: string, p: char -> bool)
    requires s == [] || (!p(s[0]) && !p(s[|s| - 1]))
    ensures Trim(s, p) == s
  {
  }

  function Split(s: string, sep: char): (r: seq<string>)
    ensures |r| > 0
  {
    if s == [] then [""]
    else
      var rest := Split(s[1..], sep);
      if s[0] == sep then [""] + rest else [[s[0]] + rest[0]] + rest[1..]
  }

  function Join(parts: seq<string>, sep: char): string {
    if parts == [] then ""
    else if |parts| == 1 then parts[0]
    else parts[0] + [sep] + Join(parts[1..], sep)
  }

  lemma {:induction false} SplitParts(s: string, sep: char)
    ensures forall x :: x in Split(s, sep) ==> sep !in x
  {
    if s != [] {
      SplitParts(s[1..], sep);
      var rest := Split(s[1..], sep);
      assert rest[0] in rest;
    }
  }

  lemma {:induction false} SplitPrefix(a: string, rest: string, sep: char)
    requires sep !in a
    ensures Split(a + rest, sep) == [a + Split(rest, sep)[0]] + Split(rest, sep)[1..]
  {
    if a == [] {
      assert a + rest == rest;
      assert a + Split(rest, sep)[0] == Split(rest, sep)[0];
    } else {
      assert (a + rest)[1..] == a[1..] + rest;
      SplitPrefix(a[1..], rest, sep);
      assert [a[0]] + (a[1..] + Split(rest, sep)[0]) == a + Split(rest, sep)[0];
    }
  }

  /** Splitting a joined text gives the parts back when none of them contains the separator. */
  lemma {:induction false} SplitJoin(parts: seq<string>, sep: char)
    requires parts != [] && forall x :: x in parts ==> sep !in x
    ensures Split(Join(parts, sep), sep) == parts
  {
    if |parts| == 1 {
      SplitPrefix(parts[0], "", sep);
      assert parts[0] + "" == parts[0];
    } else {
      SplitJoin(parts[1..], sep);
      var rest := [sep] + Join(parts[1..], sep);
      assert rest[1..] == Join(parts[1..], sep);
      SplitPrefix(parts[0], rest, sep);
      assert parts[0] + [sep] + Join(parts[1..], sep) == parts[0] + rest;
      assert Split(rest, sep) == [""] + parts[1..];
      assert parts[0] + "" == parts[0];
    }
  }

  /** How a stored list is read back (Channel.GetModels with ',', Channel.GetKeys with newlines). */
  function ReadList(text: string, sep: char): seq<string> {
    if text == "" then [] else Split(Trim(text, c => c == sep), sep)
  }

  lemma {:induction false} JoinEnds(parts: seq<string>, sep: char)
    requires |parts| > 1
    ensures |Join(parts, sep)| > 0
    ensures parts[0] != "" ==> Join(parts, sep)[0] == parts[0][0]
    ensures parts[0] == "" ==> Join(parts, sep)[0] == sep
    ensures var j, z := Join(parts, sep), parts[|parts| - 1];
      j[|j| - 1] == if z == "" then sep else z[|z| - 1]
  {
    if |parts| > 2 {
      JoinEnds(parts[1..], sep);
    }
  }

  // ---------------------------------------------------------------------------------------------------
  // Parts that contain the separator
  // ---------------------------------------------------------------------------------------------------

  /** The parts of all texts, in order. */
  function SplitAll(texts: seq<string>, sep: char): seq<string> {
    if texts == [] then [] else Split(texts[0], sep) + SplitAll(texts[1..], sep)
  }

  /** What one more character in front does to the parts. */
  function PrependChar(c: char, parts: seq<string>, sep: char): seq<string>
    requires |parts| > 0
  {
    if c == sep then [""] + parts else [[c] + parts[0]] + parts[1..]
  }

  lemma {:induction false} PrependAppend(c: char, parts: seq<string>, more: seq<string>, sep: char)
    requires |parts| > 0
    ensures PrependChar(c, parts + more, sep) == PrependChar(c, parts, sep) + more
  {
    assert (parts + more)[1..] == parts[1..] + more;
  }

  lemma {:induction false} SplitAtSeparator(a: string, rest: string, sep: char)
    ensures Split(a + [sep] + rest, sep) == Split(a, sep) + Split(rest, sep)
  {
    var text := a + [sep] + rest;
    if a == [] {
      assert text == [sep] + rest;
      assert text[1..] == rest;
    } else {
      SplitAtSeparator(a[1..], rest, sep);
      assert text[0] == a[0] && text[1..] == a[1..] + [sep] + rest;
      assert Split(text, sep) == PrependChar(a[0], Split(text[1..], sep), sep);
      PrependAppend(a[0], Split(a[1..], sep), Split(rest, sep), sep);
      assert Split(a, sep) == PrependChar(a[0], Split(a[1..], sep), sep);
    }
  }

  /** Splitting a joined text gives the parts of its parts. */
  lemma {:induction false} SplitJoinAll(parts: seq<string>, sep: char)
    requires parts != []
    ensures Split(Join(parts, sep), sep) == SplitAll(parts, sep)
  {
    if |parts| == 1 {
      assert SplitAll(parts[1..], sep) == [];
    } else {
      SplitJoinAll(parts[1..], sep);
      SplitAtSeparator(parts[0], Join(parts[1..], sep), sep);
    }
  }

  lemma {:induction false} SplitAllAppend(a: seq<string>, b: seq<string>, sep: char)
    ensures SplitAll(a + b, sep) == SplitAll(a, sep) + SplitAll(b, sep)
  {
    if a == [] {
      assert a + b == b;
    } else {
      assert (a + b)[1..] == a[1..] + b;
      SplitAllAppend(a[1..], b, sep);
    }
  }

  lemma {:induction false} SplitAllFixed(parts: seq<string>, sep: char)
    requires forall x :: x in parts ==> sep !in x
    ensures SplitAll(parts, sep) == parts
  {
    if parts != [] {
      assert parts[0] in parts && forall x :: x in parts[1..] ==> x in parts;
      SplitJoin([parts[0]], sep);
      SplitAllFixed(parts[1..], sep);
    }
  }

  // ---------------------------------------------------------------------------------------------------
  // Blank parts at the ends
  // ---------------------------------------------------------------------------------------------------

  function StripLeft(parts: seq<string>): seq<string> {
    if |parts| > 1 && parts[0] == "" then StripLeft(parts[1..]) else parts
  }

  function StripRight(parts: seq<string>): seq<string> {
    if |parts| > 1 && parts[|parts| - 1] == "" then StripRight(parts[..|parts| - 1]) else parts
  }

  /** The parts without the blank ones at either end; one is left if all are blank. */
  function Strip(parts: seq<string>): seq<string> {
    StripRight(StripLeft(parts))
  }

  predicate GoodEnds(parts: seq<string>) {
    parts == [] || (parts[0] != "" && parts[|parts| - 1] != "")
  }

  lemma {:induction false} StripLeftParts(parts: seq<string>)
    ensures StripLeft(parts) != [] <==> parts != []
    ensures forall x :: x in StripLeft(parts) ==> x in parts
    ensures |StripLeft(parts)| <= |parts| && (|parts| > 1 && parts[0] == "" ==> |StripLeft(parts)| < |parts|)
  {
    if |parts| > 1 && parts[0] == "" {
      StripLeftParts(parts[1..]);
    }
  }

  lemma {:induction false} StripRightParts(parts: seq<string>)
    ensures StripRight(parts) != [] <==> parts != []
    ensures forall x :: x in StripRight(parts) ==> x in parts
    ensures |StripRight(parts)| <= |parts| &&
      (|parts| > 1 && parts[|parts| - 1] == "" ==> |StripRight(parts)| < |parts|)
  {
    if |parts| > 1 && parts[|parts| - 1] == "" {
      StripRightParts(parts[..|parts| - 1]);
    }
  }

  /** Stripping on the right leaves a prefix that ends in a part that is not blank, or a single part. */
  lemma {:induction false} StripRightMeaning(parts: seq<string>)
    ensures var r := StripRight(parts);
      && r <= parts && (forall i :: |r| <= i < |parts| ==> parts[i] == "") && (|r| > 1 ==> r[|r| - 1] != "")
  {
    if |parts| > 1 && parts[|parts| - 1] == "" {
      StripRightMeaning(parts[..|parts| - 1]);
    }
  }

  /** Blank parts behind a part that is not blank are stripped. */
  lemma {:induction false} StripTail(parts: seq<string>, tail: seq<string>)
    requires parts != [] && parts[|parts| - 1] != "" && forall x :: x in tail ==> x == ""
    ensures Strip(parts + tail) == Strip(parts)
  {
    StripLeftTail(parts, tail);
    StripLeftLast(parts);
    StripRightTail(StripLeft(parts), tail);
  }

  lemma {:induction false} StripLeftLast(parts: seq<string>)
    requires parts != []
    ensures StripLeft(parts) != [] && StripLeft(parts)[|StripLeft(parts)| - 1] == parts[|parts| - 1]
  {
    if |parts| > 1 && parts[0] == "" {
      StripLeftLast(parts[1..]);
    }
  }

  lemma {:induction false} StripLeftTail(parts: seq<string>, tail: seq<string>)
    requires parts != [] && parts[|parts| - 1] != ""
    ensures StripLeft(parts + tail) == StripLeft(parts) + tail
  {
    if |parts| > 1 && parts[0] == "" {
      assert (parts + tail)[1..] == parts[1..] + tail;
      StripLeftTail(parts[1..], tail);
    }
  }

  lemma {:induction false} StripRightTail(parts: seq<string>, tail: seq<string>)
    requires parts != [] && parts[|parts| - 1] != "" && forall x :: x in tail ==> x == ""
    ensures StripRight(parts + tail) == StripRight(parts)
  {
    if tail == [] {
      assert parts + tail == parts;
    } else {
      var k := |tail| - 1;
      assert tail[k] in tail && forall x :: x in tail[..k] ==> x in tail;
      assert (parts + tail)[..|parts + tail| - 1] == parts + tail[..k];
      StripRightTail(parts, tail[..k]);
    }
  }

  /** Nothing is stripped exactly from good ends, or from a single part. */
  lemma {:induction false} StripFixed(parts: seq<string>)
    ensures Strip(parts) == parts <==> GoodEnds(parts) || |parts| <= 1
    ensures |Strip(parts)| <= |parts|
  {
    StripLeftParts(parts);
    StripRightParts(StripLeft(parts));
  }

  lemma {:induction false} TrimLeftJoin(parts: seq<string>, sep: char)
    requires parts != [] && forall x :: x in parts ==> sep !in x
    ensures TrimLeft(Join(parts, sep), c => c == sep) == Join(StripLeft(parts), sep)
  {
    assert parts[0] in parts;
    if |parts| > 1 && parts[0] == "" {
      var rest := parts[1..];
      assert forall x :: x in rest ==> x in parts;
      TrimLeftJoin(rest, sep);
      assert Join(parts, sep) == [sep] + Join(rest, sep);
      assert Join(parts, sep)[1..] == Join(rest, sep);
    } else if |parts| > 1 {
      JoinEnds(parts, sep);
      assert parts[0][0] in parts[0];
    } else if parts[0] != "" {
      assert parts[0][0] in parts[0];
    }
  }

  lemma {:induction false} JoinLast(parts: seq<string>, sep: char)
    requires |parts| > 1
    ensures var k := |parts| - 1; Join(parts, sep) == Join(parts[..k], sep) + [sep] + parts[k]
  {
    var k := |parts| - 1;
    if |parts| == 2 {
      assert parts[..k] == [parts[0]] && parts[1..] == [parts[1]];
    } else {
      JoinLast(parts[1..], sep);
      assert parts[1..][..k - 1] == parts[..k][1..];
      var middle := Join(parts[1..][..k - 1], sep);
      assert parts[0] + [sep] + (middle + [sep] + parts[k]) == (parts[0] + [sep] + middle) + [sep] + parts[k];
    }
  }

  lemma {:induction false} TrimRightJoin(parts: seq<string>, sep: char)
    requires parts != [] && forall x :: x in parts ==> sep !in x
    ensures TrimRight(Join(parts, sep), c => c == sep) == Join(StripRight(parts), sep)
  {
    var k := |parts| - 1;
    assert parts[k] in parts;
    if |parts| > 1 && parts[k] == "" {
      var init := parts[..k];
      assert forall x :: x in init ==> x in parts;
      TrimRightJoin(init, sep);
      JoinLast(parts, sep);
      var text := Join(parts, sep);
      assert text == Join(init, sep) + [sep];
      assert text[..|text| - 1] == Join(init, sep);
    } else if |parts| > 1 {
      JoinEnds(parts, sep);
      assert parts[k][|parts[k]| - 1] in parts[k];
    } else if parts[0] != "" {
      assert parts[0][|parts[0]| - 1] in parts[0];
    }
  }

  /** What is read back of any separator-free parts: all but the blank ones at the ends. */
  lemma {:induction false} ReadJoinStrip(parts: seq<string>, sep: char)
    requires parts != [] && parts != [""] && forall x :: x in parts ==> sep !in x
    ensures Join(parts, sep) != "" && ReadList(Join(parts, sep), sep) == Strip(parts)
  {
    if |parts| > 1 {
      JoinEnds(parts, sep);
    }
    StripLeftParts(parts);
    StripRightParts(StripLeft(parts));
    TrimLeftJoin(parts, sep);
    TrimRightJoin(StripLeft(parts), sep);
    SplitJoin(Strip(parts), sep);
  }

  /** A list of separator-free parts survives being stored exactly when its first and last parts are not
      empty. */
  lemma {:induction false} ReadJoin(parts: seq<string>, sep: char)
    requires forall x :: x in parts ==> sep !in x
    ensures ReadList(Join(parts, sep), sep) == parts <==> GoodEnds(parts)
  {
    if parts != [] && parts != [""] {
      ReadJoinStrip(parts, sep);
      StripFixed(parts);
    }
  }

  /** A list that is read has good ends, or it is a single blank part. */
  lemma {:induction false} ReadListEnds(text: string, sep: char)
    ensures GoodEnds(ReadList(text, sep)) || ReadList(text, sep) == [""]
  {
    if text != "" {
      var t := Trim(text, c => c == sep);
      TrimMeaning(text, c => c == sep);
      SplitEnds(t, sep);
    }
  }

  lemma {:induction false} SplitEnds(t: string, sep: char)
    ensures t != "" && t[0] != sep ==> Split(t, sep)[0] != ""
    ensures t != "" && t[|t| - 1] != sep ==> Split(t, sep)[|Split(t, sep)| - 1] != ""
  {
    if |t| > 1 {
      SplitEnds(t[1..], sep);
      assert t[1..][|t| - 2] == t[|t| - 1];
    }
  }
}
