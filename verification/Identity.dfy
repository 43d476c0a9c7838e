/** Fingerprints and names: which are well formed, what cleaning makes of a name,
    and which names it keeps. */
module Identity {
  import opened Common

  const MAX_LABEL_LEN := 64
  const FINGERPRINT_GROUPS := 32

  predicate IsSpace(c: char) {
    || '\t' <= c <= '\r' || c == ' ' || c == '\U{0085}' || c == '\U{00A0}' || c == '\U{1680}'
    || '\U{2000}' <= c <= '\U{200A}' || c == '\U{2028}' || c == '\U{2029}'
    || c == '\U{202F}' || c == '\U{205F}' || c == '\U{3000}'
  }

  function TrimStart(s: string): (r: string) {
    if s != [] && IsSpace(s[0]) then TrimStart(s[1..]) else s
  }

  function TrimEnd(s: string): (r: string) {
    if s != [] && IsSpace(s[|s| - 1]) then TrimEnd(s[..|s| - 1]) else s
  }

  function Trim(s: string): (r: string) {
    TrimEnd(TrimStart(s))
  }

  predicate IsHex(c: char) {
    '0' <= c <= '9' || 'a' <= c <= 'f'
  }

  /** Lower-case hex bytes joined by colons: the trust store's key. */
  predicate ValidFingerprint(fp: string) {
    && |fp| == 3 * FINGERPRINT_GROUPS - 1
    && forall i :: 0 <= i < |fp| ==> if i % 3 == 2 then fp[i] == ':' else IsHex(fp[i])
  }

  /** Neither a control character nor one that hides or reorders text. */
  predicate Rendered(c: char) {
    && !(c <= '\U{001F}' || '\U{007F}' <= c <= '\U{009F}')
    && !('\U{200B}' <= c <= '\U{200F}' || '\U{202A}' <= c <= '\U{202E}'
      || '\U{2066}' <= c <= '\U{2069}' || c == '\U{FEFF}')
  }

  function OnlyRendered(s: string): (r: string) {
    if s == [] then []
    else if Rendered(s[0]) then [s[0]] + OnlyRendered(s[1..])
    else OnlyRendered(s[1..])
  }

  function SanitizeLabel(s: string): (r: string) {
    var kept := OnlyRendered(s);
    if |kept| <= MAX_LABEL_LEN then kept else kept[..MAX_LABEL_LEN]
  }

  /** A label as every door stores it: trimmed, then cleaned, and none at all
      when nothing but space is left. */
  function StoredLabel(name: Option<string>): (r: Option<string>) {
    match name
    case None => None
    case Some(l) =>
      var clean := SanitizeLabel(Trim(l));
      if Trim(clean) == [] then None else Some(clean)
  }

  // ---------------------------------------------- what a fingerprint looks like

  /** Where the first colon is, or the end. */
  function Colon(s: string): (n: nat)
    ensures n <= |s| && ':' !in s[..n] && (n < |s| ==> s[n] == ':')
  {
    if s == [] || s[0] == ':' then 0 else
      var n := 1 + Colon(s[1..]);
      assert s[..n] == [s[0]] + s[1..][..n - 1];
      n
  }

  /** The parts of a text between its colons. */
  function Groups(s: string): (gs: seq<string>)
    decreases |s|
  {
    [s[..Colon(s)]] + if Colon(s) < |s| then Groups(s[Colon(s) + 1..]) else []
  }

  predicate HexPair(g: string) {
    |g| == 2 && forall i :: 0 <= i < 2 ==> '0' <= g[i] <= '9' || 'a' <= g[i] <= 'f'
  }

  ghost predicate HexPairs(s: string, n: nat) {
    |Groups(s)| == n && forall i :: 0 <= i < n ==> HexPair(Groups(s)[i])
  }

  predicate Spaced(s: string, n: nat) {
    && |s| == 3 * n - 1
    && forall i :: 0 <= i < |s| ==> if i % 3 == 2 then s[i] == ':' else IsHex(s[i])
  }

  lemma FirstPair(s: string, n: nat)
    requires Spaced(s, n) && n > 0
    ensures HexPair(s[..2]) && Colon(s) == 2 && (n > 1 ==> Spaced(s[3..], n - 1)) && (n == 1 ==> |s| == 2)
  {
    assert IsHex(s[0]) && IsHex(s[1]) && s[..2][0] == s[0] && s[..2][1] == s[1];
    assert Colon(s) >= 2 by {
      assert Colon(s) < |s| ==> s[Colon(s)] == ':';
    }
    if n > 1 {
      assert s[2] == ':' && forall k :: 2 < k <= |s| ==> s[2] in s[..k];
      forall i | 0 <= i < |s[3..]| ensures if i % 3 == 2 then s[3..][i] == ':' else IsHex(s[3..][i]) {
        assert s[3..][i] == s[i + 3];
      }
    }
  }

  lemma {:induction false} SpacedIsPairs(s: string, n: nat)
    requires n > 0
    ensures Spaced(s, n) <==> HexPairs(s, n)
    decreases n
  {
    if Spaced(s, n) {
      FirstPair(s, n);
      if n > 1 {
        SpacedIsPairs(s[3..], n - 1);
        forall i | 0 <= i < n ensures HexPair(Groups(s)[i]) {
          assert i > 0 ==> Groups(s)[i] == Groups(s[3..])[i - 1];
        }
      }
    }
    if HexPairs(s, n) {
      PairsAreSpaced(s, n);
    }
  }

  lemma {:induction false} PairsAreSpaced(s: string, n: nat)
    requires n > 0 && HexPairs(s, n)
    ensures Spaced(s, n)
    decreases n
  {
    var c := Colon(s);
    assert Groups(s)[0] == s[..c] && HexPair(s[..c]) && c == 2;
    assert s[0] == s[..2][0] && s[1] == s[..2][1];
    if c < |s| {
      var rest := s[3..];
      assert Groups(s) == [s[..2]] + Groups(rest);
      forall i | 0 <= i < |Groups(rest)| ensures HexPair(Groups(rest)[i]) {
        assert Groups(rest)[i] == Groups(s)[i + 1];
      }
      PairsAreSpaced(rest, n - 1);
      forall i | 3 <= i < |s| ensures if i % 3 == 2 then s[i] == ':' else IsHex(s[i]) {
        assert s[i] == rest[i - 3];
      }
    }
  }

  /** A well-formed fingerprint is thirty-two pairs of hex digits in lower case, with a
      colon between each two. */
  lemma FingerprintIsHexPairs(fp: string)
    ensures ValidFingerprint(fp) <==> HexPairs(fp, 32)
  {
    SpacedIsPairs(fp, 32);
  }

  // ------------------------------------------------------ what cleaning keeps

  lemma {:induction false} TrimEndStops(s: string)
    ensures TrimEnd(s) <= s && (TrimEnd(s) != [] ==> !IsSpace(TrimEnd(s)[|TrimEnd(s)| - 1]))
    decreases |s|
  {
    if s != [] && IsSpace(s[|s| - 1]) {
      TrimEndStops(s[..|s| - 1]);
    }
  }

  lemma {:induction false} TrimStartStops(s: string)
    ensures |TrimStart(s)| <= |s| && TrimStart(s) == s[|s| - |TrimStart(s)|..]
    ensures TrimStart(s) != [] ==> !IsSpace(TrimStart(s)[0])
    decreases |s|
  {
    if s != [] && IsSpace(s[0]) {
      TrimStartStops(s[1..]);
    }
  }

  /** A text that starts and ends with no space is trimmed already. */
  lemma TrimmedStays(s: string)
    requires s == [] || (!IsSpace(s[0]) && !IsSpace(s[|s| - 1]))
    ensures Trim(s) == s
  {
  }

  lemma TrimStops(s: string)
    ensures Trim(s) != [] ==> !IsSpace(Trim(s)[0]) && !IsSpace(Trim(s)[|Trim(s)| - 1])
    ensures forall c :: c in Trim(s) ==> c in s
  {
    TrimStartStops(s);
    TrimEndStops(TrimStart(s));
  }

  lemma TrimNeverGrows(s: string)
    ensures |Trim(s)| <= |s| && (|Trim(s)| == |s| ==> Trim(s) == s)
  {
    TrimStartStops(s);
    TrimEndStops(TrimStart(s));
  }

  lemma {:induction false} OnlyRenderedShrinks(s: string)
    ensures |OnlyRendered(s)| <= |s|
    ensures |OnlyRendered(s)| == |s| <==> forall i :: 0 <= i < |s| ==> Rendered(s[i])
    ensures |OnlyRendered(s)| == |s| ==> OnlyRendered(s) == s
  {
    if s != [] {
      OnlyRenderedShrinks(s[1..]);
      assert s == [s[0]] + s[1..];
    }
  }

  /** A name that needs no cleaning: not empty, not too long, nothing in it hidden
      or a control character, and no space at either end. */
  predicate PlainName(l: string) {
    && 0 < |l| <= MAX_LABEL_LEN && (forall i :: 0 <= i < |l| ==> Rendered(l[i]))
    && !IsSpace(l[0]) && !IsSpace(l[|l| - 1])
  }

  lemma PlainNamesAreKept(l: string)
    ensures StoredLabel(Some(l)) == Some(l) <==> PlainName(l)
  {
    TrimNeverGrows(l);
    TrimStops(l);
    OnlyRenderedShrinks(Trim(l));
    if PlainName(l) {
      TrimmedStays(l);
    }
  }
}
