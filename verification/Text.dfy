/** Values and text operations shared by the models: an optional value, the
    white-space trimming and the line splitting of the Go `strings` package. */
module Text {

  datatype Option<+T> = None | Some(value: T)

  /** The ASCII and Latin-1 members of Go's `unicode.IsSpace`. */
  predicate IsSpace(c: char) {
    c in {'\t', '\n', '\U{0B}', '\U{0C}', '\r', ' ', '\U{85}', '\U{A0}'}
  }

  function TrimLeft(s: string): (r: string)
    ensures |r| <= |s|
    ensures r == "" || !IsSpace(r[0])
  {
    if s != "" && IsSpace(s[0]) then TrimLeft(s[1..]) else s
  }

  function TrimRight(s: string): (r: string)
    ensures |r| <= |s|
    ensures r == "" || (r[0] == s[0] && !IsSpace(r[|r| - 1]))
  {
    if s != "" && IsSpace(s[|s| - 1]) then TrimRight(s[..|s| - 1]) else s
  }

  /** `strings.TrimSpace`. */
  function TrimSpace(s: string): (r: string)
    ensures r == "" || (!IsSpace(r[0]) && !IsSpace(r[|r| - 1]))
  {
    TrimRight(TrimLeft(s))
  }

  /** Go's `unicode.IsSpace` on those characters. */
  predicate IsWhite(c: char) {
    c == '\t' || c == '\n' || c == '\U{0B}' || c == '\U{0C}' || c == '\r' || c == ' ' || c == '\U{85}' || c == '\U{A0}'
  }

  lemma {:induction false} TrimLeftIs(s: string) returns (i: nat)
    ensures i <= |s| && TrimLeft(s) == s[i..] && (forall k :: 0 <= k < i ==> IsWhite(s[k]))
  {
    i := 0;
    if s != "" && IsSpace(s[0]) {
      i := TrimLeftIs(s[1..]);
      assert s[1..][i..] == s[i + 1..];
      assert forall k :: 0 < k <= i ==> s[k] == s[1..][k - 1];
      i := i + 1;
    }
  }

  lemma {:induction false} TrimRightIs(s: string) returns (j: nat)
    ensures j <= |s| && TrimRight(s) == s[..j] && (forall k :: j <= k < |s| ==> IsWhite(s[k]))
  {
    j := |s|;
    if s != "" && IsSpace(s[|s| - 1]) {
      j := TrimRightIs(s[..|s| - 1]);
      assert s[..|s| - 1][..j] == s[..j];
    }
  }

  /** Trimming takes white space off both ends, all of it, and nothing else. */
  lemma TrimSpaceIs(s: string) returns (i: nat, j: nat)
    ensures i <= j <= |s| && TrimSpace(s) == s[i..j]
    ensures forall k :: 0 <= k < i || j <= k < |s| ==> IsWhite(s[k])
    ensures i < j ==> !IsWhite(s[i]) && !IsWhite(s[j - 1])
  {
    i := TrimLeftIs(s);
    var m := TrimRightIs(s[i..]);
    j := i + m;
    assert s[i..][..m] == s[i..j];
    assert forall k :: m <= k < |s[i..]| ==> s[i..][k] == s[i + k];
    assert forall k :: j <= k < |s| ==> s[k] == s[i..][k - i];
  }

  lemma TrimIsIdempotent(s: string)
    ensures TrimSpace(TrimSpace(s)) == TrimSpace(s)
  {
  }

  /** `strings.Split(s, "\n")`: never empty, the pieces between the newlines. */
  function Lines(s: string): (r: seq<string>)
    ensures |r| > 0
  {
    if s == "" then [""]
    else
      var rest := Lines(s[1..]);
      if s[0] == '\n' then [""] + rest else [[s[0]] + rest[0]] + rest[1..]
  }

  /** `strings.Join(lines, "\n")`. */
  function JoinLines(lines: seq<string>): string {
    if |lines| == 0 then ""
    else if |lines| == 1 then lines[0]
    else lines[0] + "\n" + JoinLines(lines[1..])
  }

  lemma {:induction false} LinesOfPiece(a: string)
    requires '\n' !in a
    ensures Lines(a) == [a]
  {
    if a != "" {
      LinesOfPiece(a[1..]);
      assert a == [a[0]] + a[1..];
    }
  }

  lemma {:induction false} LinesOfPrefix(a: string, b: string)
    requires '\n' !in a
    ensures Lines(a + "\n" + b) == [a] + Lines(b)
  {
    var s := a + "\n" + b;
    if a == "" {
      assert s[1..] == b;
    } else {
      LinesOfPrefix(a[1..], b);
      assert s[1..] == a[1..] + "\n" + b;
      assert a == [a[0]] + a[1..];
    }
  }

  /** Splitting undoes joining, for every list of newline-free lines. */
  lemma {:induction false} LinesOfJoin(lines: seq<string>)
    requires |lines| > 0
    requires forall l :: l in lines ==> '\n' !in l
    ensures Lines(JoinLines(lines)) == lines
  {
    if |lines| == 1 {
      LinesOfPiece(lines[0]);
    } else {
      LinesOfJoin(lines[1..]);
      LinesOfPrefix(lines[0], JoinLines(lines[1..]));
    }
  }

  lemma JoinFirst(first: string, others: seq<string>)
    ensures JoinLines([first] + others) == if others == [] then first else first + "\n" + JoinLines(others)
  {
    assert ([first] + others)[1..] == others;
  }

  lemma ConcatIsAssociative(a: string, b: string, c: string, d: string)
    ensures (a + b) + c + d == a + (b + c + d)
  {
  }

  lemma JoinAfterNewline(rest: seq<string>)
    requires |rest| > 0
    ensures JoinLines([""] + rest) == "\n" + JoinLines(rest)
  {
    hide JoinLines;
    JoinFirst("", rest);
  }

  lemma JoinAfterChar(c: char, rest: seq<string>)
    requires |rest| > 0
    ensures JoinLines([[c] + rest[0]] + rest[1..]) == [c] + JoinLines(rest)
  {
    hide JoinLines;
    JoinFirst([c] + rest[0], rest[1..]);
    JoinFirst(rest[0], rest[1..]);
    assert rest == [rest[0]] + rest[1..];
    ConcatIsAssociative([c], rest[0], "\n", JoinLines(rest[1..]));
  }

  /** And joining undoes splitting, for every text. */
  lemma {:induction false} JoinOfLines(s: string)
    ensures JoinLines(Lines(s)) == s && forall l :: l in Lines(s) ==> '\n' !in l
  {
    hide JoinLines;
    if s == "" {
      JoinFirst("", []);
      assert [""] + [] == [""];
    } else {
      JoinOfLines(s[1..]);
      JoinAfterNewline(Lines(s[1..]));
      JoinAfterChar(s[0], Lines(s[1..]));
      assert s == [s[0]] + s[1..];
    }
  }
}
