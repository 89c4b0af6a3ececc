/** The state Secret of the login gate: how `internal/cephmgr/refusal.go` writes
    its lists into the Secret and how it reads them back. */
module GateCodec {
  import opened Text

  const MAX_REFUSED := 64
  const KEY_LENGTH := 32
  const MAC_DIGITS := 64

  /** The Secret's data; an absent key reads as the empty text. */
  datatype SecretData = SecretData(hmacKey: string, keyFp: string, pending: string, refused: string)

  /** The parsed, validated Secret. */
  datatype State = State(key: string, pending: seq<string>, refused: seq<string>)

  datatype Parsed = Empty | Corrupt | Good(st: State)

  /** HMAC-SHA256 in hex under a key, and the key fingerprint: library functions
      of which only the shape of the result is used here. */
  datatype Crypto = Crypto(mac: (string, string) -> string, fp: string -> string)

  predicate IsHex(c: char) {
    '0' <= c <= '9' || 'a' <= c <= 'f' || 'A' <= c <= 'F'
  }

  /** 32 bytes in hexadecimal. */
  predicate IsMac(s: string) {
    |s| == MAC_DIGITS && forall c :: c in s ==> IsHex(c)
  }

  /** What `parseList` makes of the lines it is given: the trimmed non-blank
      lines, or nothing at all if one of them is not a MAC. */
  function Entries(lines: seq<string>): (r: Option<seq<string>>)
    ensures r.Some? ==> forall e :: e in r.value ==> IsMac(e)
  {
    if |lines| == 0 then Some([])
    else
      var l, rest := TrimSpace(lines[0]), Entries(lines[1..]);
      if l == "" then rest
      else if !IsMac(l) || rest.None? then None
      else Some([l] + rest.value)
  }

  lemma {:induction false} EntriesAppend(a: seq<string>, b: seq<string>)
    ensures Entries(a + b) ==
            if Entries(a).None? || Entries(b).None? then None else Some(Entries(a).value + Entries(b).value)
  {
    if |a| == 0 {
      assert a + b == b;
      if Entries(b).Some? {
        assert [] + Entries(b).value == Entries(b).value;
      }
    } else {
      EntriesAppend(a[1..], b);
      assert (a + b)[1..] == a[1..] + b;
      if Entries(a).Some? && Entries(b).Some? && TrimSpace(a[0]) != "" {
        var t, x, y := [TrimSpace(a[0])], Entries(a[1..]).value, Entries(b).value;
        assert (t + x) + y == t + (x + y);
      }
    }
  }

  /** The line is a MAC: white space aside, 64 hexadecimal digits. */
  predicate IsMacLine(line: string) {
    var l := TrimSpace(line);
    |l| == 64 && forall c :: c in l ==> '0' <= c <= '9' || 'a' <= c <= 'f' || 'A' <= c <= 'F'
  }

  /** A list is refused exactly if some line is neither blank nor a MAC, and otherwise holds
      exactly what its lines hold. */
  lemma {:induction false} EntriesAre(lines: seq<string>)
    ensures Entries(lines).None? <==> exists l :: l in lines && TrimSpace(l) != "" && !IsMacLine(l)
    ensures Entries(lines).Some? ==>
              forall e :: e in Entries(lines).value <==> e != "" && exists l :: l in lines && TrimSpace(l) == e
  {
    hide TrimSpace;
    if |lines| > 0 {
      EntriesAre(lines[1..]);
      assert lines == [lines[0]] + lines[1..];
      assert lines[0] in lines;
    }
  }

  /** `parseList`: the accumulating loop, against the meaning above. */
  method ParseList(raw: string) returns (r: Option<seq<string>>)
    ensures r == Entries(Lines(raw))
  {
    var lines := Lines(raw);
    var out: seq<string> := [];
    for i := 0 to |lines|
      invariant Entries(lines[..i]) == Some(out)
    {
      EntriesAppend(lines[..i], [lines[i]]);
      assert lines[..i + 1] == lines[..i] + [lines[i]];
      assert [lines[i]][1..] == [] && Entries([]) == Some([]);
      var l := TrimSpace(lines[i]);
      if l == "" {
        assert out + [] == out;
        continue;
      }
      if !IsMac(l) {
        EntriesAppend(lines[..i + 1], lines[i + 1..]);
        assert lines == lines[..i + 1] + lines[i + 1..];
        return None;
      }
      assert [l] + [] == [l];
      out := out + [l];
    }
    assert lines[..|lines|] == lines;
    return Some(out);
  }

  lemma MacIsTrimmed(s: string)
    requires IsMac(s)
    ensures TrimSpace(s) == s && s != "" && '\n' !in s
  {
    assert IsHex(s[0]) && IsHex(s[|s| - 1]);
  }

  lemma {:induction false} EntriesOfMacs(macs: seq<string>)
    requires forall m :: m in macs ==> IsMac(m)
    ensures Entries(macs) == Some(macs)
  {
    if |macs| > 0 {
      MacIsTrimmed(macs[0]);
      EntriesOfMacs(macs[1..]);
      assert macs == [macs[0]] + macs[1..];
    }
  }

  /** A list written by `update` is read back by `parseList` as it was. */
  lemma ListRoundTrip(macs: seq<string>)
    requires forall m :: m in macs ==> IsMac(m)
    ensures Entries(Lines(JoinLines(macs))) == Some(macs)
  {
    if |macs| > 0 {
      forall m | m in macs ensures '\n' !in m {
        MacIsTrimmed(m);
      }
      LinesOfJoin(macs);
      EntriesOfMacs(macs);
    }
  }

  /** Whatever text a person left in a list, rewriting what was read from it
      settles at once: the second reading gives what the first one gave. */
  lemma RereadIsStable(raw: string)
    requires Entries(Lines(raw)).Some?
    ensures Entries(Lines(JoinLines(Entries(Lines(raw)).value))) == Entries(Lines(raw))
  {
    ListRoundTrip(Entries(Lines(raw)).value);
  }

  predicate Blank(d: SecretData) {
    d.hmacKey == "" && d.keyFp == "" && TrimSpace(d.pending) == "" && TrimSpace(d.refused) == ""
  }

  /** `parseState`. */
  function ParseState(c: Crypto, d: SecretData): (r: Parsed)
    ensures r.Good? ==> WellFormed(r.st)
  {
    if Blank(d) then Empty
    else if |d.hmacKey| != KEY_LENGTH || d.keyFp != c.fp(d.hmacKey) then Corrupt
    else
      var p, q := Entries(Lines(d.pending)), Entries(Lines(d.refused));
      if p.None? || q.None? then Corrupt else Good(State(d.hmacKey, p.value, q.value))
  }

  /** Exactly which Secrets are trusted, which are taken as new, and what is read from a
      trusted one: a key of 32 bytes with its own fingerprint beside it, and two lists of
      MACs. Everything else is corrupt. */
  lemma TrustedIff(c: Crypto, d: SecretData)
    ensures ParseState(c, d).Empty? <==>
            d.hmacKey == "" && d.keyFp == "" && TrimSpace(d.pending) == "" && TrimSpace(d.refused) == ""
    ensures ParseState(c, d).Good? <==>
            && |d.hmacKey| == 32 && d.keyFp == c.fp(d.hmacKey)
            && (forall l :: l in Lines(d.pending) || l in Lines(d.refused) ==> TrimSpace(l) == "" || IsMacLine(l))
    ensures ParseState(c, d).Good? ==>
              var st := ParseState(c, d).st;
              && st.key == d.hmacKey
              && (forall m :: m in st.pending <==> m != "" && exists l :: l in Lines(d.pending) && TrimSpace(l) == m)
              && (forall m :: m in st.refused <==> m != "" && exists l :: l in Lines(d.refused) && TrimSpace(l) == m)
  {
    hide TrimSpace, Entries, IsMacLine, Lines;
    EntriesAre(Lines(d.pending));
    EntriesAre(Lines(d.refused));
  }

  ghost predicate WellFormed(st: State) {
    |st.key| == KEY_LENGTH && forall m :: m in st.pending || m in st.refused ==> IsMac(m)
  }

  /** `bounded`: the MAX_REFUSED newest entries. */
  function Bounded<T>(list: seq<T>): (r: seq<T>)
    ensures |r| <= MAX_REFUSED && |r| <= |list| && r == list[|list| - |r|..]
    ensures |r| == MAX_REFUSED || r == list
  {
    if |list| > MAX_REFUSED then list[|list| - MAX_REFUSED..] else list
  }

  /** What `update` puts in the Secret for a changed state. */
  function Write(c: Crypto, st: State): SecretData {
    SecretData(st.key, c.fp(st.key), JoinLines(st.pending), JoinLines(Bounded(st.refused)))
  }

  /** `parseState` reads back exactly what `update` wrote. */
  lemma StateRoundTrip(c: Crypto, st: State)
    requires WellFormed(st)
    ensures ParseState(c, Write(c, st)) == Good(st.(refused := Bounded(st.refused)))
  {
    hide Entries, Lines, JoinLines, IsMac, TrimSpace;
    ListRoundTrip(st.pending);
    ListRoundTrip(Bounded(st.refused));
  }

  /** The dashboard account, as the loader hands it over. */
  datatype Account = Account(username: string, password: string)

  const NUL: char := '\0'

  /** What `SecretLoader` lets through. */
  predicate Usable(a: Account) {
    NUL !in a.username && NUL !in a.password
  }

  /** The text `accountMAC` authenticates. */
  function Encoded(a: Account): string {
    a.username + [NUL] + a.password
  }

  lemma {:induction false} SplitAtNul(u: string, p: string, v: string, q: string)
    requires NUL !in u && NUL !in v
    requires u + [NUL] + p == v + [NUL] + q
    ensures u == v && p == q
  {
    var s := u + [NUL] + p;
    assert s[|u|] == NUL && s[|v|] == NUL;
    assert |u| == |v|;
    assert u == s[..|u|] && v == s[..|v|];
    assert p == s[|u| + 1..] && q == s[|v| + 1..];
  }

  function MacOf(c: Crypto, key: string, a: Account): string {
    c.mac(key, Encoded(a))
  }

  /** No two of the texts authenticated in a run collide, under any key, and
      every result is a MAC. (A function into 64 digits cannot be injective on
      all texts; this is what "injective" can mean for the accounts of a run.) */
  ghost predicate CollisionFree(c: Crypto, accounts: set<Account>) {
    forall key: string, a: Account ::
      a in accounts ==>
        IsMac(MacOf(c, key, a)) &&
        forall b: Account :: b in accounts && MacOf(c, key, a) == MacOf(c, key, b) ==> Encoded(a) == Encoded(b)
  }

  /** Two accounts the loader accepts share a MAC only if they are equal. */
  lemma MacIdentifiesAccount(c: Crypto, accounts: set<Account>, key: string, a: Account, b: Account)
    requires CollisionFree(c, accounts) && a in accounts && b in accounts && Usable(a) && Usable(b)
    ensures MacOf(c, key, a) == MacOf(c, key, b) <==> a == b
  {
    if MacOf(c, key, a) == MacOf(c, key, b) {
      SplitAtNul(a.username, a.password, b.username, b.password);
    }
  }

  /** The NUL refusal of the loader is what this rests on: without it two
      different accounts have the same MAC under every key. */
  lemma NulWouldCollide(c: Crypto, key: string)
    ensures MacOf(c, key, Account("a", ['b', NUL, 'c'])) == MacOf(c, key, Account(['a', NUL, 'b'], "c"))
  {
    assert Encoded(Account("a", ['b', NUL, 'c'])) == ['a', NUL, 'b', NUL, 'c'];
    assert Encoded(Account(['a', NUL, 'b'], "c")) == ['a', NUL, 'b', NUL, 'c'];
  }
}
