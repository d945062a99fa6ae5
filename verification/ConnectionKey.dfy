/**
  The canonical description of a channel that is hashed into its connection key.  Channels
  share a connection exactly if their keys agree, so the description must not confuse two
  channels.
 */
module ConnectionKey {
  import opened Decimal

  /** The length of a PEM block and the hex digest of its contents, "0" for an empty one. */
  datatype Pem = Pem(length: nat, digest: string)

  datatype Channel = Channel(
    host: string, port: int, authority: string, verifyName: string, credentials: int,
    rootCerts: Pem, certChain: Pem, privateKey: Pem)

  const NUL: char := '\0'
  const BAR: char := '|'
  const COLON: char := ':'

  /** What `%.*s` prints: nothing from the first NUL on. */
  function Printed(s: string): string {
    if s == [] || s[0] == NUL then [] else [s[0]] + Printed(s[1..])
  }

  function Field(s: string): string {
    Numeral(|s|) + [COLON] + Printed(s)
  }

  function PemField(p: Pem): string {
    Numeral(p.length) + [COLON] + p.digest
  }

  function Credentials(ch: Channel): string {
    SignedNumeral(ch.credentials) + [BAR] + (PemField(ch.rootCerts) + [BAR]
    + (PemField(ch.certChain) + [BAR] + PemField(ch.privateKey)))
  }

  function Canonical(ch: Channel): string {
    Field(ch.host) + [BAR] + (SignedNumeral(ch.port) + [BAR] + (Field(ch.authority) + [BAR]
    + (Field(ch.verifyName) + [BAR] + Credentials(ch))))
  }

  predicate NulFree(s: string) {
    forall i :: 0 <= i < |s| ==> s[i] != NUL
  }

  predicate Hex(s: string) {
    forall i :: 0 <= i < |s| ==> IsDigit(s[i]) || 'a' <= s[i] <= 'f'
  }

  /** What the channel checks guarantee of the names, and SHA-256 of the digests. */
  predicate Checked(ch: Channel) {
    && NulFree(ch.host) && NulFree(ch.authority) && NulFree(ch.verifyName)
    && Hex(ch.rootCerts.digest) && Hex(ch.certChain.digest) && Hex(ch.privateKey.digest)
  }

  // ------------------------------------------------------------- taking it apart

  predicate Free(s: string, c: char) {
    forall i :: 0 <= i < |s| ==> s[i] != c
  }

  /** A string is cut at the first separator in one way only. */
  lemma CutOnce(a: string, b: string, c: char, p: string, q: string)
    requires Free(a, c) && Free(b, c) && a + [c] + p == b + [c] + q
    ensures a == b && p == q
  {
    var s, t := a + [c] + p, b + [c] + q;
    assert s[|a|] == c && t[|b|] == c;
    assert a == s[..|a|] && b == t[..|b|];
    assert p == s[|a| + 1..] && q == t[|b| + 1..];
  }

  lemma {:induction false} PrintedWhole(s: string)
    requires NulFree(s)
    ensures Printed(s) == s
  {
    if s != [] {
      PrintedWhole(s[1..]);
    }
  }

  lemma NumeralInjective(m: nat, n: nat)
    requires Numeral(m) == Numeral(n)
    ensures m == n
  {
    NumeralRoundTrip(m);
    NumeralRoundTrip(n);
  }

  /** A counted field followed by anything can be read back. */
  lemma FieldCut(s: string, t: string, p: string, q: string)
    requires NulFree(s) && NulFree(t) && Field(s) + [BAR] + p == Field(t) + [BAR] + q
    ensures s == t && p == q
  {
    PrintedWhole(s);
    PrintedWhole(t);
    var sp, tq := s + [BAR] + p, t + [BAR] + q;
    Regroup(Numeral(|s|), s, p);
    Regroup(Numeral(|t|), t, q);
    CutOnce(Numeral(|s|), Numeral(|t|), COLON, sp, tq);
    NumeralInjective(|s|, |t|);
    SameLengthCut(s, t, p, q);
  }

  lemma Regroup(a: string, s: string, p: string)
    ensures a + [COLON] + s + [BAR] + p == a + [COLON] + (s + [BAR] + p)
  {
  }

  lemma SameLengthCut(s: string, t: string, p: string, q: string)
    requires |s| == |t| && s + [BAR] + p == t + [BAR] + q
    ensures s == t && p == q
  {
    var sp, tq := s + [BAR] + p, t + [BAR] + q;
    assert s == sp[..|s|] && t == tq[..|t|];
    assert p == sp[|s| + 1..] && q == tq[|t| + 1..];
  }

  lemma PemCut(a: Pem, b: Pem, p: string, q: string)
    requires Hex(a.digest) && Hex(b.digest) && PemField(a) + [BAR] + p == PemField(b) + [BAR] + q
    ensures a == b && p == q
  {
    assert Free(PemField(a), BAR) && Free(PemField(b), BAR);
    CutOnce(PemField(a), PemField(b), BAR, p, q);
    PemInjective(a, b);
  }

  lemma PemInjective(a: Pem, b: Pem)
    requires PemField(a) == PemField(b)
    ensures a == b
  {
    CutOnce(Numeral(a.length), Numeral(b.length), COLON, a.digest, b.digest);
    NumeralInjective(a.length, b.length);
  }

  lemma SignedCut(m: int, n: int, p: string, q: string)
    requires SignedNumeral(m) + [BAR] + p == SignedNumeral(n) + [BAR] + q
    ensures m == n && p == q
  {
    CutOnce(SignedNumeral(m), SignedNumeral(n), BAR, p, q);
    SignedNumeralInjective(m, n);
  }

  lemma CredentialsInjective(a: Channel, b: Channel)
    requires Checked(a) && Checked(b) && Credentials(a) == Credentials(b)
    ensures a.credentials == b.credentials && a.rootCerts == b.rootCerts && a.certChain == b.certChain
    ensures a.privateKey == b.privateKey
  {
    var chainA, chainB := PemField(a.certChain) + [BAR] + PemField(a.privateKey), PemField(b.certChain) + [BAR] + PemField(b.privateKey);
    SignedCut(a.credentials, b.credentials, PemField(a.rootCerts) + [BAR] + chainA, PemField(b.rootCerts) + [BAR] + chainB);
    PemCut(a.rootCerts, b.rootCerts, chainA, chainB);
    PemCut(a.certChain, b.certChain, PemField(a.privateKey), PemField(b.privateKey));
    PemInjective(a.privateKey, b.privateKey);
  }

  /** Two channels that differ in anything the key is about have different descriptions. */
  lemma CanonicalInjective(a: Channel, b: Channel)
    requires Checked(a) && Checked(b)
    ensures Canonical(a) == Canonical(b) <==> a == b
  {
    if Canonical(a) == Canonical(b) {
      var nameA, nameB := Field(a.verifyName) + [BAR] + Credentials(a), Field(b.verifyName) + [BAR] + Credentials(b);
      var authA, authB := Field(a.authority) + [BAR] + nameA, Field(b.authority) + [BAR] + nameB;
      FieldCut(a.host, b.host, SignedNumeral(a.port) + [BAR] + authA, SignedNumeral(b.port) + [BAR] + authB);
      SignedCut(a.port, b.port, authA, authB);
      FieldCut(a.authority, b.authority, nameA, nameB);
      FieldCut(a.verifyName, b.verifyName, Credentials(a), Credentials(b));
      CredentialsInjective(a, b);
    }
  }

  // --------------------------------------------------- without the channel checks

  /** A NUL hides what follows it. */
  lemma {:induction false} PrintedHides(s: string, t: string, i: nat)
    requires |s| == |t| && i < |s| && s[..i + 1] == t[..i + 1] && s[i] == NUL
    ensures Printed(s) == Printed(t)
  {
    assert s[0] == s[..i + 1][0] && t[0] == t[..i + 1][0];
    if i > 0 && s[0] != NUL {
      assert s[1..][..i] == s[..i + 1][1..] && t[1..][..i] == t[..i + 1][1..];
      PrintedHides(s[1..], t[1..], i - 1);
    }
  }

  lemma {:induction false} PrintedShows(s: string, t: string)
    requires |s| == |t| && Printed(s) == Printed(t) && (forall i :: 0 <= i < |s| - 1 ==> s[i] != NUL)
    ensures s == t
  {
    if |s| == 1 {
      assert s == [s[0]] && t == [t[0]] && s[1..] == [] && t[1..] == [];
      if s[0] == NUL || t[0] == NUL {
        assert s[0] == t[0];
      } else {
        assert Printed(s)[0] == s[0] && Printed(t)[0] == t[0];
      }
    } else if |s| > 1 {
      assert s[0] != NUL && Printed(s)[0] == s[0];
      assert t[0] != NUL && Printed(t)[0] == t[0];
      assert Printed(s)[1..] == Printed(s[1..]) && Printed(t)[1..] == Printed(t[1..]);
      PrintedShows(s[1..], t[1..]);
      assert s == [s[0]] + s[1..] && t == [t[0]] + t[1..];
    }
  }

  /** A name can be confused with another one exactly if a NUL stands before its last character. */
  lemma ConfusedExactly(s: string)
    ensures (exists t :: t != s && Field(t) == Field(s)) <==> (exists i :: 0 <= i < |s| - 1 && s[i] == NUL)
  {
    if i :| 0 <= i < |s| - 1 && s[i] == NUL {
      var last := |s| - 1;
      var t := s[last := if s[last] == 'a' then 'b' else 'a'];
      assert s[..i + 1] == t[..i + 1] && t[last] != s[last];
      PrintedHides(s, t, i);
      assert t != s && Field(t) == Field(s);
    }
    if t :| t != s && Field(t) == Field(s) {
      CutOnce(Numeral(|s|), Numeral(|t|), COLON, Printed(s), Printed(t));
      NumeralInjective(|s|, |t|);
      if forall i :: 0 <= i < |s| - 1 ==> s[i] != NUL {
        PrintedShows(s, t);
      }
    }
  }
}
