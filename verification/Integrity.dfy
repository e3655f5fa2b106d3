/**
 Integrity metadata (M4/app/integrity/verifier.py): the digest of an event
 without its `integrity` field, and its verification.
 */
module Integrity {
  import opened Results
  import opened AsciiText
  import opened Canonicalizer
  import opened CanonicalIdentity

  /** The runtime, SHA-256 in lower-case hex, and `str()` of a non-string digest value. */
  datatype Crypto = Crypto(rt: Runtime, sha: string -> string, show: Value -> string)

  predicate HexChar(c: char) {
    '0' <= c <= '9' || 'a' <= c <= 'f'
  }

  ghost predicate SaneCrypto(c: Crypto) {
    Sane(c.rt) && forall t, i :: 0 <= i < |c.sha(t)| ==> HexChar(c.sha(t)[i])
  }

  ghost predicate Injective(f: string -> string) {
    forall s, t :: f(s) == f(t) ==> s == t
  }

  // ---- dictionaries ----

  function Lookup(es: seq<Entry>, key: string): Option<Value> {
    if es == [] then None
    else if es[0].key == key then Some(es[0].value)
    else Lookup(es[1..], key)
  }

  function Put(es: seq<Entry>, key: string, v: Value): seq<Entry> {
    if es == [] then [Entry(key, v)]
    else if es[0].key == key then [Entry(key, v)] + es[1..]
    else [es[0]] + Put(es[1..], key, v)
  }

  /** The copy of an event with its `integrity` key popped. */
  function StripIntegrity(es: seq<Entry>): seq<Entry> {
    if es == [] then []
    else if es[0].key == "integrity" then es[1..]
    else [es[0]] + StripIntegrity(es[1..])
  }

  lemma {:induction false} PutLookup(es: seq<Entry>, key: string, v: Value)
    ensures Lookup(Put(es, key, v), key) == Some(v)
  {
    if es != [] && es[0].key != key {
      PutLookup(es[1..], key, v);
      assert Put(es, key, v)[1..] == Put(es[1..], key, v);
    }
  }

  lemma {:induction false} StripPut(es: seq<Entry>, v: Value)
    ensures StripIntegrity(Put(es, "integrity", v)) == StripIntegrity(es)
  {
    if es == [] {
    } else if es[0].key == "integrity" {
      assert Put(es, "integrity", v)[1..] == es[1..];
    } else {
      StripPut(es[1..], v);
      assert Put(es, "integrity", v)[1..] == Put(es[1..], "integrity", v);
    }
  }

  /** A dictionary: no key twice. */
  predicate Dictionary(es: seq<Entry>) {
    forall i, j :: 0 <= i < j < |es| ==> es[i].key != es[j].key
  }

  /** What is hashed is every entry of the event but `integrity`, unchanged. */
  lemma {:induction false} StripExactly(es: seq<Entry>)
    requires Dictionary(es)
    ensures forall e :: e in StripIntegrity(es) <==> e in es && e.key != "integrity"
    ensures forall k :: Lookup(StripIntegrity(es), k) == if k == "integrity" then None else Lookup(es, k)
  {
    if es != [] {
      StripExactly(es[1..]);
      assert es == [es[0]] + es[1..];
      if es[0].key == "integrity" {
        NotAgain(es[1..], "integrity");
      } else {
        assert ([es[0]] + StripIntegrity(es[1..]))[1..] == StripIntegrity(es[1..]);
      }
    }
  }

  lemma {:induction false} NotAgain(es: seq<Entry>, key: string)
    requires forall e :: e in es ==> e.key != key
    ensures Lookup(es, key) == None
  {
    if es != [] {
      assert es[0] in es;
      NotAgain(es[1..], key);
    }
  }

  // ---- digest and verification ----

  /** What `str.strip()` removes. */
  predicate Space(c: char) {
    || c in {' ', '\U{85}', '\U{A0}', '\U{1680}', '\U{2028}', '\U{2029}', '\U{202F}', '\U{205F}', '\U{3000}'}
    || '\t' <= c <= '\r' || '\U{1C}' <= c <= '\U{1F}' || '\U{2000}' <= c <= '\U{200A}'
  }

  function StripSpace(s: string): (r: string)
    ensures s == "" || (!Space(s[0]) && !Space(s[|s| - 1])) ==> r == s
    decreases |s|
  {
    if s == "" then ""
    else if Space(s[0]) then StripSpace(s[1..])
    else if Space(s[|s| - 1]) then StripSpace(s[..|s| - 1])
    else s
  }

  /** The digest `calculate_integrity` records; `None` where serialisation raises. */
  function Digest(es: seq<Entry>, c: Crypto): Option<string> {
    var text :- TextOf(VDict(StripIntegrity(es)), c.rt);
    Some(c.sha(text))
  }

  /** The digest recorded in the event itself, if there is one. */
  function RecordedDigest(es: seq<Entry>, c: Crypto): Option<string> {
    match Lookup(es, "integrity")
    case Some(VDict(meta)) =>
      var d :- Lookup(meta, "digest");
      Some(if d.VStr? then d.s else c.show(d))
    case _ => None
  }

  /** `verify_integrity`; `None` where it raises. */
  function Verify(es: seq<Entry>, expected: Option<string>, c: Crypto): Option<bool> {
    var target := if expected.Some? then expected else RecordedDigest(es, c);
    if target.None? then Some(false) else
      var digest :- Digest(es, c);
      Some(Lower(digest) == StripSpace(Lower(target.value)))
  }

  /** The event with its metadata replaced, as `process` seals it. */
  function Seal(es: seq<Entry>, meta: seq<Entry>): seq<Entry> {
    Put(es, "integrity", VDict(meta))
  }

  lemma HexUnchanged(t: string, c: Crypto)
    requires SaneCrypto(c)
    ensures Lower(c.sha(t)) == c.sha(t) && StripSpace(Lower(c.sha(t))) == c.sha(t)
  {
    var d := c.sha(t);
    assert Lower(d) == d;
    assert d != "" ==> HexChar(d[0]) && HexChar(d[|d| - 1]);
  }

  // ---- which spellings of a digest are accepted ----

  predicate Blank(s: string) {
    forall i :: 0 <= i < |s| ==> Space(s[i])
  }

  /** `s` is the lower-case `d` in whatever letter case. */
  predicate SameLetters(s: string, d: string) {
    |s| == |d| && forall i :: 0 <= i < |d| ==> s[i] == d[i] || (UpperCase(s[i]) && s[i] as int + 32 == d[i] as int)
  }

  ghost predicate SpelledAt(t: string, d: string, i: nat, j: nat) {
    i <= j <= |t| && Blank(t[..i]) && Blank(t[j..]) && SameLetters(t[i..j], d)
  }

  /** `t` is `d` between white space, in whatever letter case. */
  ghost predicate Spelled(t: string, d: string) {
    exists i: nat, j: nat :: SpelledAt(t, d, i, j)
  }

  predicate Hex(d: string) {
    forall i :: 0 <= i < |d| ==> HexChar(d[i])
  }

  lemma BlankWithin(s: string, a: nat, b: nat)
    requires Blank(s) && a <= b <= |s|
    ensures Blank(s[a..b])
  {
  }

  /** The string without its first, or its last, character strips to the same. */
  ghost predicate StripsTo(s: string, i: nat, j: nat) {
    i <= j <= |s| && Blank(s[..i]) && Blank(s[j..]) && StripSpace(s) == s[i..j]
  }

  lemma BlankCons(c: char, s: string)
    requires Space(c) && Blank(s)
    ensures Blank([c] + s)
  {
  }

  lemma BlankSnoc(s: string, c: char)
    requires Blank(s) && Space(c)
    ensures Blank(s + [c])
  {
  }

  lemma StripsHead(s: string, i: nat, j: nat)
    requires s != "" && Space(s[0]) && StripsTo(s[1..], i, j)
    ensures StripsTo(s, i + 1, j + 1)
  {
    BlankCons(s[0], s[1..][..i]);
    assert s[..i + 1] == [s[0]] + s[1..][..i] && s[j + 1..] == s[1..][j..];
    assert s[i + 1..j + 1] == s[1..][i..j];
  }

  lemma StripsLast(s: string, i: nat, j: nat)
    requires s != "" && !Space(s[0]) && Space(s[|s| - 1]) && StripsTo(s[..|s| - 1], i, j)
    ensures StripsTo(s, i, j)
  {
    var n := |s| - 1;
    BlankSnoc(s[..n][j..], s[n]);
    assert s[..i] == s[..n][..i] && s[j..] == s[..n][j..] + [s[n]];
    assert s[i..j] == s[..n][i..j];
  }

  lemma {:induction false} StripFinds(s: string) returns (i: nat, j: nat)
    ensures StripsTo(s, i, j)
    decreases |s|
  {
    i, j := 0, |s|;
    if s != "" && Space(s[0]) {
      var k, l := StripFinds(s[1..]);
      StripsHead(s, k, l);
      i, j := k + 1, l + 1;
    } else if s != "" && Space(s[|s| - 1]) {
      i, j := StripFinds(s[..|s| - 1]);
      StripsLast(s, i, j);
    }
  }

  /** Stripping leaves what lies between the white space at both ends. */
  lemma {:induction false} StripIs(s: string, i: nat, j: nat)
    requires i <= j <= |s| && Blank(s[..i]) && Blank(s[j..]) && (i < j ==> !Space(s[i]) && !Space(s[j - 1]))
    ensures StripSpace(s) == s[i..j]
    decreases |s|
  {
    if s == "" {
    } else if Space(s[0]) {
      if i == 0 {
        BlankWithin(s[j..], 1, |s|);
        StripIs(s[1..], 0, 0);
      } else {
        BlankWithin(s[..i], 1, i);
        assert s[1..][..i - 1] == s[..i][1..i] && s[1..][j - 1..] == s[j..] && s[1..][i - 1..j - 1] == s[i..j];
        StripIs(s[1..], i - 1, j - 1);
      }
    } else {
      NotBlankHead(s, i);
      NotBlankLast(s, j);
      if Space(s[|s| - 1]) {
        var n := |s| - 1;
        BlankWithin(s[j..], 0, n - j);
        assert s[..n][j..] == s[j..][..n - j] && s[..n][..j] == s[..j];
        StripIs(s[..n], 0, j);
      }
    }
  }

  lemma NotBlankLast(s: string, j: nat)
    requires s != "" && j <= |s| && Blank(s[j..])
    ensures Space(s[|s| - 1]) || j == |s|
  {
    assert j < |s| ==> s[j..][|s| - 1 - j] == s[|s| - 1];
  }

  lemma NotBlankHead(s: string, i: nat)
    requires s != "" && i <= |s| && Blank(s[..i])
    ensures i == 0 || Space(s[0])
  {
    assert i > 0 ==> s[..i][0] == s[0];
  }

  lemma LowerKeepsSpace(t: string, k: nat)
    requires k < |t|
    ensures Space(Lower(t)[k]) <==> Space(t[k])
  {
  }

  lemma LettersAgree(s: string, d: string)
    requires Hex(d)
    ensures Lower(s) == d <==> SameLetters(s, d)
  {
    if SameLetters(s, d) {
      assert forall i :: 0 <= i < |d| ==> HexChar(d[i]) && Lower(s)[i] == d[i];
    }
  }

  lemma LowerKeepsBlank(t: string)
    ensures Blank(Lower(t)) <==> Blank(t)
  {
    forall k | 0 <= k < |t| ensures Space(Lower(t)[k]) <==> Space(t[k]) {
      LowerKeepsSpace(t, k);
    }
  }

  lemma LowerWithin(t: string, i: nat, j: nat)
    requires i <= j <= |t|
    ensures Lower(t)[i..j] == Lower(t[i..j])
  {
  }

  lemma LowerSplits(t: string, i: nat, j: nat)
    requires i <= j <= |t|
    ensures Lower(t)[i..j] == Lower(t[i..j])
    ensures Blank(Lower(t)[..i]) <==> Blank(t[..i])
    ensures Blank(Lower(t)[j..]) <==> Blank(t[j..])
  {
    LowerWithin(t, i, j);
    LowerWithin(t, 0, i);
    LowerWithin(t, j, |t|);
    LowerKeepsBlank(t[..i]);
    LowerKeepsBlank(t[j..]);
  }

  lemma StrippedIsSpelled(t: string, d: string)
    requires Hex(d) && StripSpace(Lower(t)) == d
    ensures Spelled(t, d)
  {
    var i, j := StripFinds(Lower(t));
    LowerSplits(t, i, j);
    LettersAgree(t[i..j], d);
    assert SpelledAt(t, d, i, j);
  }

  lemma HexHasNoSpace(d: string)
    requires Hex(d) && d != ""
    ensures !Space(d[0]) && !Space(d[|d| - 1])
  {
    assert HexChar(d[0]) && HexChar(d[|d| - 1]);
  }

  lemma SpelledIsStripped(t: string, d: string, i: nat, j: nat)
    requires Hex(d) && SpelledAt(t, d, i, j)
    ensures StripSpace(Lower(t)) == d
  {
    LowerSplits(t, i, j);
    LettersAgree(t[i..j], d);
    var u := Lower(t);
    if i < j {
      HexHasNoSpace(d);
      assert u[i..j][0] == u[i] && u[i..j][j - i - 1] == u[j - 1];
    }
    StripIs(u, i, j);
  }

  /** Lower-casing and stripping yields the digest exactly for its spellings. */
  lemma SpelledExactly(t: string, d: string)
    requires Hex(d)
    ensures StripSpace(Lower(t)) == d <==> Spelled(t, d)
  {
    if StripSpace(Lower(t)) == d {
      StrippedIsSpelled(t, d);
    }
    if Spelled(t, d) {
      var i: nat, j: nat :| SpelledAt(t, d, i, j);
      SpelledIsStripped(t, d, i, j);
    }
  }

  lemma DigestIsHex(es: seq<Entry>, c: Crypto)
    requires SaneCrypto(c) && Digest(es, c).Some?
    ensures Hex(Digest(es, c).value) && Lower(Digest(es, c).value) == Digest(es, c).value
  {
    HexUnchanged(TextOf(VDict(StripIntegrity(es)), c.rt).value, c);
  }

  /** `t` is a spelling of the digest of the event's content. */
  ghost predicate SpellsDigest(t: string, es: seq<Entry>, c: Crypto) {
    Digest(es, c).Some? && Spelled(t, Digest(es, c).value)
  }

  /** A supplied digest is accepted exactly if it is a spelling of the content's own. */
  lemma AcceptsExactly(es: seq<Entry>, t: string, c: Crypto)
    requires SaneCrypto(c)
    ensures Verify(es, Some(t), c) == Some(true) <==> SpellsDigest(t, es, c)
  {
    if Digest(es, c).Some? {
      DigestIsHex(es, c);
      SpelledExactly(t, Digest(es, c).value);
    }
  }

  /** The event records this digest. */
  ghost predicate Records(es: seq<Entry>, meta: seq<Entry>, v: Value) {
    Lookup(es, "integrity") == Some(VDict(meta)) && Lookup(meta, "digest") == Some(v)
  }

  /** The event records some digest. */
  ghost predicate Recorded(es: seq<Entry>) {
    exists meta, v :: Records(es, meta, v)
  }

  function Shown(v: Value, c: Crypto): string {
    if v.VStr? then v.s else c.show(v)
  }

  /**
   Without a supplied digest an event is accepted exactly if it records one that
   is a spelling of its own content's; without a record it is refused.
   */
  lemma SelfVerifiesExactly(es: seq<Entry>, c: Crypto)
    requires SaneCrypto(c)
    ensures Verify(es, None, c) == Some(true) <==>
            exists meta, v :: Records(es, meta, v) && SpellsDigest(Shown(v, c), es, c)
    ensures !Recorded(es) ==> Verify(es, None, c) == Some(false)
  {
    match Lookup(es, "integrity")
    case Some(VDict(meta)) =>
      if Lookup(meta, "digest").Some? {
        var v := Lookup(meta, "digest").value;
        assert Records(es, meta, v);
        AcceptsExactly(es, Shown(v, c), c);
      }
    case _ =>
  }

  /** A sealed event verifies against its own record, whatever it carried before. */
  lemma SealedVerifies(es: seq<Entry>, meta: seq<Entry>, c: Crypto)
    requires SaneCrypto(c) && Digest(es, c).Some?
    requires Lookup(meta, "digest") == Some(VStr(Digest(es, c).value))
    ensures Verify(Seal(es, meta), None, c) == Some(true)
  {
    PutLookup(es, "integrity", VDict(meta));
    StripPut(es, VDict(meta));
    HexUnchanged(TextOf(VDict(StripIntegrity(es)), c.rt).value, c);
  }

  /** Two different canonical texts with one hash. */
  ghost predicate Collision(a: Value, b: Value, c: Crypto) {
    && TextOf(a, c.rt) != TextOf(b, c.rt)
    && TextOf(a, c.rt).Some? && TextOf(b, c.rt).Some?
    && c.sha(TextOf(a, c.rt).value) == c.sha(TextOf(b, c.rt).value)
  }

  /**
   A digest accepts exactly the content it was computed from, unless the two
   contents are a hash collision.
   */
  lemma TamperEvidence(es: seq<Entry>, original: seq<Entry>, d: string, c: Crypto)
    requires SaneCrypto(c)
    requires Digest(original, c) == Some(d) && Digest(es, c).Some?
    requires DistinctNfc(VDict(StripIntegrity(es)), c.rt) && DistinctNfc(VDict(StripIntegrity(original)), c.rt)
    ensures var a, b := VDict(StripIntegrity(es)), VDict(StripIntegrity(original));
            && Verify(es, Some(d), c) == Some(SameValue(a, b, c.rt) || Collision(a, b, c))
            && (Injective(c.sha) ==> !Collision(a, b, c))
  {
    var a, b := VDict(StripIntegrity(es)), VDict(StripIntegrity(original));
    HexUnchanged(TextOf(a, c.rt).value, c);
    HexUnchanged(TextOf(b, c.rt).value, c);
    TextIdentifiesValue(a, b, c.rt);
  }

  /** The content is as it was, or collides with what it was. */
  ghost predicate Unaltered(edited: seq<Entry>, es: seq<Entry>, c: Crypto) {
    var a, b := VDict(StripIntegrity(edited)), VDict(StripIntegrity(es));
    SameValue(a, b, c.rt) || Collision(a, b, c)
  }

  /** The event records a spelling of its own content's digest that is no spelling of the other's. */
  ghost predicate Resealed(edited: seq<Entry>, es: seq<Entry>, c: Crypto) {
    exists m, v ::
      && Records(edited, m, v) && SpellsDigest(Shown(v, c), edited, c) && !SpellsDigest(Shown(v, c), es, c)
  }

  lemma AlteredMeansResealed(es: seq<Entry>, edited: seq<Entry>, c: Crypto)
    requires SaneCrypto(c) && Digest(es, c).Some? && Digest(edited, c).Some? && Digest(edited, c) != Digest(es, c)
    requires Verify(edited, None, c) == Some(true)
    ensures Resealed(edited, es, c)
  {
    SelfVerifiesExactly(edited, c);
    var m, v :| Records(edited, m, v) && SpellsDigest(Shown(v, c), edited, c);
    OneSpelling(Shown(v, c), edited, es, c);
  }

  lemma UnalteredDigest(es: seq<Entry>, edited: seq<Entry>, c: Crypto)
    requires SaneCrypto(c) && Digest(es, c).Some? && Digest(edited, c).Some?
    requires DistinctNfc(VDict(StripIntegrity(es)), c.rt) && DistinctNfc(VDict(StripIntegrity(edited)), c.rt)
    ensures Unaltered(edited, es, c) <==> Digest(edited, c) == Digest(es, c)
  {
    TextIdentifiesValue(VDict(StripIntegrity(edited)), VDict(StripIntegrity(es)), c.rt);
  }

  lemma {:induction false} LookupMember(es: seq<Entry>, key: string)
    requires Lookup(es, key).Some?
    ensures exists i :: 0 <= i < |es| && es[i] == Entry(key, Lookup(es, key).value)
  {
    if es[0].key == key {
      assert es[0] == Entry(key, Lookup(es, key).value);
    } else {
      LookupMember(es[1..], key);
      var i :| 0 <= i < |es[1..]| && es[1..][i] == Entry(key, Lookup(es, key).value);
      assert es[i + 1] == es[1..][i];
    }
  }

  /** A changed value under any key but `integrity` is a changed content. */
  lemma ChangedValueCounts(edited: seq<Entry>, es: seq<Entry>, key: string, c: Crypto)
    requires Dictionary(edited) && Dictionary(es) && key != "integrity"
    requires Lookup(edited, key).Some? && Lookup(es, key).Some?
    requires !SameValue(Lookup(edited, key).value, Lookup(es, key).value, c.rt)
    ensures !SameValue(VDict(StripIntegrity(edited)), VDict(StripIntegrity(es)), c.rt)
  {
    StripExactly(edited);
    StripExactly(es);
    DifferentUnder(StripIntegrity(edited), StripIntegrity(es), key, c);
  }

  lemma DifferentUnder(x: seq<Entry>, y: seq<Entry>, key: string, c: Crypto)
    requires Lookup(x, key).Some? && Lookup(y, key).Some?
    requires !SameValue(Lookup(x, key).value, Lookup(y, key).value, c.rt)
    ensures !SameValue(VDict(x), VDict(y), c.rt)
  {
    LookupMember(x, key);
    LookupMember(y, key);
    var i :| 0 <= i < |x| && x[i] == Entry(key, Lookup(x, key).value);
    var j :| 0 <= j < |y| && y[j] == Entry(key, Lookup(y, key).value);
    DifferentAt(x, y, i, j, c);
  }

  lemma DifferentAt(x: seq<Entry>, y: seq<Entry>, i: nat, j: nat, c: Crypto)
    requires i < |x| && j < |y| && x[i].key == y[j].key && !SameValue(x[i].value, y[j].value, c.rt)
    ensures !SameValue(VDict(x), VDict(y), c.rt)
  {
  }

  /** So is a key that is missing or new, unless another one has its normal form. */
  lemma ChangedKeyCounts(edited: seq<Entry>, es: seq<Entry>, e: Entry, c: Crypto)
    requires Dictionary(edited) && Dictionary(es) && e in es && e.key != "integrity"
    requires forall d :: d in edited && d.key != "integrity" ==> c.rt.nfc(d.key) != c.rt.nfc(e.key)
    ensures !SameValue(VDict(StripIntegrity(edited)), VDict(StripIntegrity(es)), c.rt)
    ensures !SameValue(VDict(StripIntegrity(es)), VDict(StripIntegrity(edited)), c.rt)
  {
    StripExactly(edited);
    StripExactly(es);
    var x, y := StripIntegrity(edited), StripIntegrity(es);
    assert e in y && c.rt.nfc(e.key) in NfcKeys(y, c.rt) && c.rt.nfc(e.key) !in NfcKeys(x, c.rt);
  }

  /**
   An edited event that keeps its seal is accepted exactly when its content is
   unchanged; one that drops the seal is refused; and one whose content changed is
   accepted only with another digest, its own.
   */
  lemma EditedSealDetected(es: seq<Entry>, meta: seq<Entry>, edited: seq<Entry>, c: Crypto)
    requires SaneCrypto(c) && Digest(es, c).Some? && Digest(edited, c).Some?
    requires Lookup(meta, "digest") == Some(VStr(Digest(es, c).value))
    requires DistinctNfc(VDict(StripIntegrity(es)), c.rt) && DistinctNfc(VDict(StripIntegrity(edited)), c.rt)
    ensures Lookup(edited, "integrity") == Some(VDict(meta)) ==>
              Verify(edited, None, c) == Some(Unaltered(edited, es, c))
    ensures !Recorded(edited) ==> Verify(edited, None, c) == Some(false)
    ensures Verify(edited, None, c) == Some(true) && !Unaltered(edited, es, c) ==> Resealed(edited, es, c)
  {
    TamperEvidence(edited, es, Digest(es, c).value, c);
    SelfVerifiesExactly(edited, c);
    UnalteredDigest(es, edited, c);
    if Verify(edited, None, c) == Some(true) && !Unaltered(edited, es, c) {
      AlteredMeansResealed(es, edited, c);
    }
  }

  /** A text spells one digest only. */
  lemma OneSpelling(t: string, a: seq<Entry>, b: seq<Entry>, c: Crypto)
    requires SaneCrypto(c) && Digest(a, c).Some? && Digest(b, c).Some? && Digest(a, c) != Digest(b, c)
    requires SpellsDigest(t, a, c)
    ensures !SpellsDigest(t, b, c)
  {
    DigestIsHex(a, c);
    DigestIsHex(b, c);
    SpelledExactly(t, Digest(a, c).value);
    SpelledExactly(t, Digest(b, c).value);
  }
}
