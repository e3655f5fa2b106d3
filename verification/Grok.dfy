/**
 Grok expansion (M2/abcd-main/app/engine/grok.py): textual substitution of
 `%{NAME}` and `%{NAME:field}` references, iterated at most five times, against
 full recursive expansion.
 */
module Grok {
  import opened Results
  import opened Orders

  // ---- references in text ----

  predicate NameChar(c: char) {
    'A' <= c <= 'Z' || '0' <= c <= '9' || c == '_'
  }

  predicate FieldChar(c: char) {
    NameChar(c) || 'a' <= c <= 'z'
  }

  const CAPITALS: set<char> := {
    'A', 'B', 'C', 'D', 'E', 'F', 'G', 'H', 'I', 'J', 'K', 'L', 'M', 'N', 'O', 'P', 'Q', 'R', 'S', 'T', 'U', 'V', 'W',
    'X', 'Y', 'Z', '0', '1', '2', '3', '4', '5', '6', '7', '8', '9', '_'}

  const SMALL: set<char> := {
    'a', 'b', 'c', 'd', 'e', 'f', 'g', 'h', 'i', 'j', 'k', 'l', 'm', 'n', 'o', 'p', 'q', 'r', 's', 't', 'u', 'v', 'w',
    'x', 'y', 'z'}

  /** The two character classes of the reference expression. */
  lemma Classes(c: char)
    ensures NameChar(c) <==> c in CAPITALS
    ensures FieldChar(c) <==> c in CAPITALS || c in SMALL
  {
  }

  predicate AllName(s: string) {
    forall i :: 0 <= i < |s| ==> NameChar(s[i])
  }

  predicate AllField(s: string) {
    forall i :: 0 <= i < |s| ==> FieldChar(s[i])
  }

  /** A pattern is read as literal characters and references; `field` is "" when absent. */
  datatype Token = Lit(c: char) | Ref(name: string, field: string)

  predicate ValidRef(t: Token) {
    t.Ref? && t.name != "" && AllName(t.name) && AllField(t.field)
  }

  function RefText(t: Token): string
    requires t.Ref?
  {
    "%{" + t.name + (if t.field == "" then "}" else (":" + t.field + "}"))
  }

  /** Where the run of name (or field) characters that starts at `i` ends. */
  function RunEnd(s: string, i: nat, names: bool): (r: nat)
    requires i <= |s|
    ensures i <= r <= |s|
    ensures forall k :: i <= k < r ==> if names then NameChar(s[k]) else FieldChar(s[k])
    ensures r < |s| ==> !(if names then NameChar(s[r]) else FieldChar(s[r]))
    decreases |s| - i
  {
    if i < |s| && (if names then NameChar(s[i]) else FieldChar(s[i])) then RunEnd(s, i + 1, names) else i
  }

  /** A match of the reference expression at the start of the text. */
  function MatchRef(s: string): (r: Option<Token>)
    ensures r.Some? ==> r.value.Ref? && |RefText(r.value)| <= |s|
  {
    if |s| < 2 || s[0] != '%' || s[1] != '{' then None else
      var p := RunEnd(s, 2, true);
      if p == 2 || p == |s| then None
      else if s[p] == '}' then Some(Ref(s[2..p], ""))
      else if s[p] != ':' then None
      else
        var q := RunEnd(s, p + 1, false);
        if q == p + 1 || q == |s| || s[q] != '}' then None
        else Some(Ref(s[2..p], s[p + 1..q]))
  }

  /** What is matched is a reference, and it is what the text starts with. */
  lemma MatchSound(s: string)
    requires MatchRef(s).Some?
    ensures ValidRef(MatchRef(s).value) && RefText(MatchRef(s).value) <= s
  {
    var t := MatchRef(s).value;
    var p := RunEnd(s, 2, true);
    assert forall i :: 0 <= i < |t.name| ==> t.name[i] == s[2 + i];
    if t.field == "" {
      assert s[..p + 1] == "%{" + s[2..p] + "}";
    } else {
      var q := RunEnd(s, p + 1, false);
      assert forall i :: 0 <= i < |t.field| ==> t.field[i] == s[p + 1 + i];
      assert s[..q + 1] == "%{" + s[2..p] + (":" + s[p + 1..q] + "}");
    }
  }

  lemma {:induction false} RunEndIs(s: string, i: nat, e: nat, names: bool)
    requires i <= e < |s|
    requires forall k :: i <= k < e ==> if names then NameChar(s[k]) else FieldChar(s[k])
    requires !(if names then NameChar(s[e]) else FieldChar(s[e]))
    ensures RunEnd(s, i, names) == e
    decreases e - i
  {
    if i < e {
      RunEndIs(s, i + 1, e, names);
    }
  }

  lemma MatchPlain(s: string, name: string)
    requires name != "" && AllName(name) && "%{" + name + "}" <= s
    ensures MatchRef(s) == Some(Ref(name, ""))
  {
    var x, p := "%{" + name + "}", 2 + |name|;
    assert forall i :: 0 <= i < |x| ==> s[i] == x[i];
    assert forall i :: 2 <= i < p ==> x[i] == name[i - 2];
    assert x[p] == '}';
    RunEndIs(s, 2, p, true);
    assert s[2..p] == name;
  }

  lemma MatchNamed(s: string, name: string, field: string)
    requires name != "" && AllName(name) && field != "" && AllField(field)
    requires "%{" + name + (":" + field + "}") <= s
    ensures MatchRef(s) == Some(Ref(name, field))
  {
    var x, p := "%{" + name + (":" + field + "}"), 2 + |name|;
    var q := p + 1 + |field|;
    assert forall i :: 0 <= i < |x| ==> s[i] == x[i];
    assert forall i :: 2 <= i < p ==> x[i] == name[i - 2];
    assert forall i :: p + 1 <= i < q ==> x[i] == field[i - p - 1];
    assert x[p] == ':' && x[q] == '}';
    RunEndIs(s, 2, p, true);
    RunEndIs(s, p + 1, q, false);
    assert s[2..p] == name && s[p + 1..q] == field;
  }

  /** Text that starts with a reference is matched as that reference. */
  lemma MatchPrefix(t: Token, s: string)
    requires ValidRef(t) && RefText(t) <= s
    ensures MatchRef(s) == Some(t)
  {
    if t.field == "" {
      MatchPlain(s, t.name);
    } else {
      MatchNamed(s, t.name, t.field);
    }
  }

  /** The leftmost, non-overlapping matches that `re.sub` visits, and the text between them. */
  function Tokens(s: string): seq<Token> {
    if s == "" then []
    else match MatchRef(s)
      case Some(t) => [t] + Tokens(s[|RefText(t)|..])
      case None => [Lit(s[0])] + Tokens(s[1..])
  }

  function Lits(s: string): (r: seq<Token>)
    ensures |r| == |s| && forall i :: 0 <= i < |s| ==> r[i] == Lit(s[i])
  {
    seq(|s|, i requires 0 <= i < |s| => Lit(s[i]))
  }

  // ---- one round of substitution ----

  type Table = map<string, string>

  function Lookup(table: Table, name: string): string {
    if name in table then table[name] else "\\S+"
  }

  function Open(field: string): string {
    if field == "" then "(?:" else "(?P<" + field + ">"
  }

  function Wrap(field: string, body: string): string {
    Open(field) + body + ")"
  }

  /** Replaces every reference by its wrapped definition. */
  function Substitute(ts: seq<Token>, table: Table): string {
    if ts == [] then ""
    else match ts[0]
      case Lit(c) => [c] + Substitute(ts[1..], table)
      case Ref(name, field) => Wrap(field, Lookup(table, name)) + Substitute(ts[1..], table)
  }

  function Round(s: string, table: Table): string {
    Substitute(Tokens(s), table)
  }

  function Rounds(s: string, table: Table, n: nat): string
    decreases n
  {
    if n == 0 then s else Rounds(Round(s, table), table, n - 1)
  }

  lemma {:induction false} FixedPoint(s: string, table: Table, n: nat)
    requires Round(s, table) == s
    ensures Rounds(s, table, n) == s
  {
    if n > 0 {
      FixedPoint(s, table, n - 1);
    }
  }

  /** The source's loop: at most five rounds, stopping early when nothing changes. */
  method GrokToRegex(pattern: string, common: Table, custom: Table) returns (res: string)
    ensures res == Rounds(pattern, common + custom, 5)
  {
    var table := common + custom;
    res := pattern;
    var i := 0;
    while i < 5
      invariant 0 <= i <= 5
      invariant Rounds(res, table, 5 - i) == Rounds(pattern, table, 5)
    {
      var next := Round(res, table);
      if next == res {
        FixedPoint(res, table, 5 - i);
        return;
      }
      res := next;
      i := i + 1;
    }
  }

  /** A reference with a field becomes a group of that name around its definition, one without a plain group. */
  lemma ReferenceBecomesGroup(name: string, field: string, table: Table)
    requires name != "" && AllName(name) && AllField(field)
    ensures Round("%{" + name + (if field == "" then "}" else (":" + field + "}")), table) ==
            (if field == "" then "(?:" else ("(?P<" + field + ">"))
            + (if name in table then table[name] else "\\S+") + ")"
  {
    var t := Ref(name, field);
    MatchPrefix(t, RefText(t));
    assert RefText(t)[|RefText(t)|..] == "";
    var ts := [t];
    assert Tokens(RefText(t)) == ts && ts[1..] == [] && Substitute(ts[1..], table) == "";
    assert Substitute(ts, table) == Wrap(field, Lookup(table, name)) + "";
  }

  // ---- what a round does to the references ----

  /** Characters that cannot continue a reference. */
  predicate Safe(c: char) {
    !FieldChar(c) && c != '{' && c != '}' && c != ':'
  }

  lemma RefTextTail(t: Token, i: nat)
    requires ValidRef(t) && 1 <= i < |RefText(t)|
    ensures !Safe(RefText(t)[i]) && RefText(t)[i] != '%'
  {
    var x := RefText(t);
    if i >= 2 && i < 2 + |t.name| {
      assert x[i] == t.name[i - 2];
    } else if i > 2 + |t.name| && t.field != "" && i < 3 + |t.name| + |t.field| {
      assert x[i] == t.field[i - 3 - |t.name|];
    }
  }

  lemma MatchWithin(a: string, b: string, t: Token)
    requires b != "" && Safe(b[0]) && ValidRef(t) && a != "" && RefText(t) <= a + b
    ensures RefText(t) <= a
  {
    assert |a| < |RefText(t)| ==> RefText(t)[|a|] == (a + b)[|a|] == b[0];
    if |a| < |RefText(t)| {
      RefTextTail(t, |a|);
    }
  }

  lemma NoMatchAcross(a: string, b: string)
    requires a != "" && b != "" && Safe(b[0])
    ensures MatchRef(a + b) == MatchRef(a)
  {
    if MatchRef(a).Some? {
      MatchSound(a);
      assert RefText(MatchRef(a).value) <= a + b;
      MatchPrefix(MatchRef(a).value, a + b);
    } else if MatchRef(a + b).Some? {
      MatchSound(a + b);
      MatchWithin(a, b, MatchRef(a + b).value);
      MatchPrefix(MatchRef(a + b).value, a);
    }
  }

  lemma TokensStep(a: string, b: string) returns (head: Token, k: nat)
    requires a != "" && b != "" && Safe(b[0])
    ensures 1 <= k <= |a|
    ensures Tokens(a) == [head] + Tokens(a[k..])
    ensures Tokens(a + b) == [head] + Tokens(a[k..] + b)
  {
    NoMatchAcross(a, b);
    if MatchRef(a).Some? {
      head, k := MatchRef(a).value, |RefText(MatchRef(a).value)|;
    } else {
      head, k := Lit(a[0]), 1;
    }
    assert (a + b)[k..] == a[k..] + b;
  }

  /** Reading splits in front of a character that cannot continue a reference. */
  lemma {:induction false} TokensSplit(a: string, b: string)
    requires b != "" && Safe(b[0])
    ensures Tokens(a + b) == Tokens(a) + Tokens(b)
    decreases |a|
  {
    if a == "" {
      assert a + b == b;
    } else {
      var head, k := TokensStep(a, b);
      TokensSplit(a[k..], b);
      Associates([head], Tokens(a[k..]), Tokens(b));
    }
  }

  lemma {:induction false} LiteralPrefix(a: string, b: string)
    requires '%' !in a
    ensures Tokens(a + b) == Lits(a) + Tokens(b)
  {
    if a == "" {
      assert a + b == b;
    } else {
      assert (a + b)[0] == a[0] && (a + b)[1..] == a[1..] + b;
      assert MatchRef(a + b).None?;
      LiteralPrefix(a[1..], b);
      assert Lits(a) == [Lit(a[0])] + Lits(a[1..]);
      Associates([Lit(a[0])], Lits(a[1..]), Tokens(b));
    }
  }

  /** A wrapped definition reads as its brackets around its own tokens, whatever follows. */
  lemma TokensOfWrap(field: string, body: string, rest: string)
    requires AllField(field)
    ensures Tokens(Wrap(field, body) + rest) == Lits(Open(field)) + Tokens(body) + [Lit(')')] + Tokens(rest)
  {
    var close := ")" + rest;
    WrapSplits(field, body, rest);
    LiteralPrefix(Open(field), body + close);
    TokensSplit(body, close);
    TokensOfClose(rest);
    FourPieces(Lits(Open(field)), Tokens(body), [Lit(')')], Tokens(rest));
  }

  lemma WrapSplits(field: string, body: string, rest: string)
    ensures Wrap(field, body) + rest == Open(field) + (body + (")" + rest))
  {
  }

  lemma TokensOfClose(rest: string)
    ensures Tokens(")" + rest) == [Lit(')')] + Tokens(rest)
  {
    var close := ")" + rest;
    assert close[1..] == rest && MatchRef(close).None?;
  }

  lemma FourPieces(a: seq<Token>, b: seq<Token>, c: seq<Token>, d: seq<Token>)
    ensures a + (b + (c + d)) == a + b + c + d
  {
  }

  /** Up to the first bracket a round leaves the text as it was. */
  lemma {:induction false} RoundKeepsPrefix(s: string, table: Table, n: nat)
    requires n <= |Round(s, table)| && forall i :: 0 <= i < n ==> Round(s, table)[i] != '('
    ensures n <= |s| && s[..n] == Round(s, table)[..n]
    decreases n
  {
    var u := Round(s, table);
    if n > 0 {
      if MatchRef(s).Some? {
        FirstBracket(s, table);
      } else {
        var rest := Round(s[1..], table);
        assert u == [s[0]] + rest;
        assert forall i :: 0 <= i < n - 1 ==> rest[i] == u[i + 1];
        RoundKeepsPrefix(s[1..], table, n - 1);
        assert s[..n] == [s[0]] + s[1..][..n - 1];
      }
    }
  }

  lemma FirstBracket(s: string, table: Table)
    requires s != "" && MatchRef(s).Some?
    ensures Round(s, table) != "" && Round(s, table)[0] == '('
  {
    var t := MatchRef(s).value;
    assert Tokens(s)[0] == t && Open(t.field)[0] == '(';
  }

  /** A reference at the start of a round's output after `c` was already there before the round. */
  lemma RefWasThere(c: char, s: string, table: Table, t: Token)
    requires ValidRef(t) && RefText(t) <= [c] + Round(s, table)
    ensures RefText(t) <= [c] + s
  {
    var u, x := Round(s, table), RefText(t);
    var n := |x| - 1;
    forall i | 0 <= i < n ensures u[i] != '(' {
      RefTextTail(t, i + 1);
      assert u[i] == ([c] + u)[i + 1] == x[i + 1];
    }
    RoundKeepsPrefix(s, table, n);
    assert x == [c] + u[..n];
    assert ([c] + s)[..n + 1] == [c] + s[..n];
  }

  /** A literal character stays literal after the round. */
  lemma LiteralStays(s: string, table: Table)
    requires s != "" && MatchRef(s).None?
    ensures MatchRef([s[0]] + Round(s[1..], table)).None?
  {
    var u := [s[0]] + Round(s[1..], table);
    if MatchRef(u).Some? {
      MatchSound(u);
      RefWasThere(s[0], s[1..], table, MatchRef(u).value);
      assert s == [s[0]] + s[1..];
      MatchPrefix(MatchRef(u).value, s);
    }
  }

  /** The tokens after a round, computed from the tokens before it. */
  function Unfold(ts: seq<Token>, table: Table): seq<Token> {
    if ts == [] then []
    else match ts[0]
      case Lit(c) => [ts[0]] + Unfold(ts[1..], table)
      case Ref(name, field) =>
        Lits(Open(field)) + Tokens(Lookup(table, name)) + [Lit(')')] + Unfold(ts[1..], table)
  }

  /** Substituting in the text is unfolding the tokens: no reference appears or vanishes at a seam. */
  lemma {:induction false} TokensOfRound(s: string, table: Table)
    ensures Tokens(Round(s, table)) == Unfold(Tokens(s), table)
    decreases |s|
  {
    if s != "" {
      match MatchRef(s)
      case Some(t) =>
        var rest := s[|RefText(t)|..];
        TokensOfRound(rest, table);
        assert Tokens(s) == [t] + Tokens(rest) && Tokens(s)[1..] == Tokens(rest);
        MatchSound(s);
        TokensOfWrap(t.field, Lookup(table, t.name), Round(rest, table));
      case None =>
        TokensOfRound(s[1..], table);
        assert Tokens(s)[1..] == Tokens(s[1..]);
        LiteralStays(s, table);
        var u := [s[0]] + Round(s[1..], table);
        assert u[1..] == Round(s[1..], table);
    }
  }

  // ---- full expansion ----

  /** References are nested at most `h` deep. */
  predicate HeightAtMost(ts: seq<Token>, table: Table, h: nat)
    decreases h
  {
    forall t :: t in ts && t.Ref? ==> h > 0 && HeightAtMost(Tokens(Lookup(table, t.name)), table, h - 1)
  }

  /** Every reference replaced by its own full expansion. */
  function Expansion(ts: seq<Token>, table: Table, h: nat): string
    requires HeightAtMost(ts, table, h)
    decreases h, |ts|
  {
    if ts == [] then ""
    else
      assert ts[0] in ts && forall t :: t in ts[1..] ==> t in ts;
      match ts[0]
      case Lit(c) => [c] + Expansion(ts[1..], table, h)
      case Ref(name, field) =>
        Wrap(field, Expansion(Tokens(Lookup(table, name)), table, h - 1)) + Expansion(ts[1..], table, h)
  }

  lemma {:induction false} ExpansionAppend(a: seq<Token>, b: seq<Token>, table: Table, h: nat)
    requires HeightAtMost(a, table, h) && HeightAtMost(b, table, h)
    ensures HeightAtMost(a + b, table, h)
    ensures Expansion(a + b, table, h) == Expansion(a, table, h) + Expansion(b, table, h)
    decreases |a|
  {
    if a == [] {
      assert a + b == b;
    } else {
      assert (a + b)[1..] == a[1..] + b;
      ExpansionAppend(a[1..], b, table, h);
    }
  }

  lemma {:induction false} ExpansionOfLits(s: string, table: Table, h: nat)
    ensures HeightAtMost(Lits(s), table, h) && Expansion(Lits(s), table, h) == s
  {
    if s != "" {
      assert Lits(s)[1..] == Lits(s[1..]);
      ExpansionOfLits(s[1..], table, h);
    }
  }

  /** Text without references is its own expansion. */
  lemma {:induction false} NoRefs(s: string, table: Table)
    requires HeightAtMost(Tokens(s), table, 0)
    ensures Tokens(s) == Lits(s)
  {
    if s != "" {
      assert Tokens(s)[0] in Tokens(s);
      assert MatchRef(s).None?;
      assert Tokens(s)[1..] == Tokens(s[1..]);
      NoRefs(s[1..], table);
    }
  }

  lemma {:induction false} UnfoldMembers(ts: seq<Token>, table: Table, r: Token)
    requires r.Ref?
    ensures r in Unfold(ts, table) <==> exists t :: t in ts && t.Ref? && r in Tokens(Lookup(table, t.name))
  {
    if ts != [] {
      UnfoldMembers(ts[1..], table, r);
      assert ts == [ts[0]] + ts[1..];
    }
  }

  /** A round removes exactly one level of nesting. */
  lemma UnfoldHeight(ts: seq<Token>, table: Table, h: nat)
    ensures HeightAtMost(Unfold(ts, table), table, h) <==> HeightAtMost(ts, table, h + 1)
  {
    forall r: Token | r.Ref?
      ensures r in Unfold(ts, table) <==> exists t :: t in ts && t.Ref? && r in Tokens(Lookup(table, t.name))
    {
      UnfoldMembers(ts, table, r);
    }
  }

  /** And it does not change the full expansion. */
  lemma {:induction false} UnfoldExpands(ts: seq<Token>, table: Table, h: nat)
    requires HeightAtMost(ts, table, h + 1)
    ensures HeightAtMost(Unfold(ts, table), table, h)
    ensures Expansion(Unfold(ts, table), table, h) == Expansion(ts, table, h + 1)
    decreases |ts|
  {
    UnfoldHeight(ts, table, h);
    if ts != [] {
      UnfoldHeight(ts[1..], table, h);
      UnfoldExpands(ts[1..], table, h);
      match ts[0]
      case Lit(c) =>
        assert Unfold(ts, table)[1..] == Unfold(ts[1..], table);
      case Ref(name, field) =>
        assert ts[0] in ts;
        UnfoldedRef(name, field, Unfold(ts[1..], table), table, h);
    }
  }

  lemma UnfoldedRef(name: string, field: string, rest: seq<Token>, table: Table, h: nat)
    requires HeightAtMost(Tokens(Lookup(table, name)), table, h) && HeightAtMost(rest, table, h)
    ensures var ts := Lits(Open(field)) + Tokens(Lookup(table, name)) + [Lit(')')] + rest;
            && HeightAtMost(ts, table, h)
            && Expansion(ts, table, h) ==
               Wrap(field, Expansion(Tokens(Lookup(table, name)), table, h)) + Expansion(rest, table, h)
  {
    var open, body := Lits(Open(field)), Tokens(Lookup(table, name));
    ExpansionOfLits(Open(field), table, h);
    ExpansionOfLits(")", table, h);
    assert Lits(")") == [Lit(')')];
    ExpansionAppend(open, body, table, h);
    ExpansionAppend(open + body, [Lit(')')], table, h);
    ExpansionAppend(open + body + [Lit(')')], rest, table, h);
  }

  /** One round costs exactly one level, and keeps the full expansion. */
  lemma RoundExpands(s: string, table: Table, h: nat)
    ensures HeightAtMost(Tokens(Round(s, table)), table, h) <==> HeightAtMost(Tokens(s), table, h + 1)
    ensures HeightAtMost(Tokens(s), table, h + 1) ==>
              Expansion(Tokens(Round(s, table)), table, h) == Expansion(Tokens(s), table, h + 1)
  {
    var ts, us := Tokens(s), Tokens(Round(s, table));
    TokensOfRound(s, table);
    assert us == Unfold(ts, table);
    UnfoldStep(ts, us, table, h);
  }

  lemma UnfoldStep(ts: seq<Token>, us: seq<Token>, table: Table, h: nat)
    requires us == Unfold(ts, table)
    ensures HeightAtMost(us, table, h) <==> HeightAtMost(ts, table, h + 1)
    ensures HeightAtMost(ts, table, h + 1) ==> Expansion(us, table, h) == Expansion(ts, table, h + 1)
  {
    UnfoldHeight(ts, table, h);
    if HeightAtMost(ts, table, h + 1) {
      UnfoldExpands(ts, table, h);
    }
  }

  lemma NothingLeft(s: string, table: Table)
    requires HeightAtMost(Tokens(s), table, 0)
    ensures s == Expansion(Tokens(s), table, 0)
  {
    NoRefs(s, table);
    ExpansionOfLits(s, table, 0);
  }

  /** `r` has no reference exactly if `s` has height at most `n`, and is then its expansion. */
  ghost predicate Settles(s: string, r: string, table: Table, n: nat) {
    && (HeightAtMost(Tokens(r), table, 0) <==> HeightAtMost(Tokens(s), table, n))
    && (HeightAtMost(Tokens(s), table, n) ==> r == Expansion(Tokens(s), table, n))
  }

  lemma SettlesBefore(s: string, u: string, r: string, table: Table, h: nat)
    requires u == Round(s, table) && Settles(u, r, table, h)
    ensures Settles(s, r, table, h + 1)
  {
    RoundExpands(s, table, h);
  }

  lemma SettledNow(s: string, table: Table)
    ensures Settles(s, s, table, 0)
  {
    if HeightAtMost(Tokens(s), table, 0) {
      NothingLeft(s, table);
    }
  }

  /** What one round hands back, all rounds hand back. */
  lemma {:induction false} RoundsBackwards(s: string, r: string, table: Table, n: nat, good: (string, nat) -> bool)
    requires r == Rounds(s, table, n) && good(r, 0)
    requires forall u, h: nat :: good(Round(u, table), h) ==> good(u, h + 1)
    ensures good(s, n)
    decreases n
  {
    if n > 0 {
      RoundsBackwards(Round(s, table), r, table, n - 1, good);
    }
  }

  lemma RoundsExpand(s: string, table: Table, n: nat)
    ensures Settles(s, Rounds(s, table, n), table, n)
  {
    var r := Rounds(s, table, n);
    SettledNow(r, table);
    forall u, h: nat ensures SettlesTo(r, table)(Round(u, table), h) ==> SettlesTo(r, table)(u, h + 1) {
      SettlesToBefore(u, r, table, h);
    }
    RoundsBackwards(s, r, table, n, SettlesTo(r, table));
  }

  ghost function SettlesTo(r: string, table: Table): (string, nat) -> bool {
    (u: string, h: nat) => Settles(u, r, table, h)
  }

  lemma SettlesToBefore(u: string, r: string, table: Table, h: nat)
    ensures SettlesTo(r, table)(Round(u, table), h) ==> SettlesTo(r, table)(u, h + 1)
  {
    if Settles(Round(u, table), r, table, h) {
      SettlesBefore(u, Round(u, table), r, table, h);
    }
  }

  /**
   Five rounds leave no reference exactly when references are nested at most
   five deep, and the result is then the full recursive expansion.
   */
  lemma FiveRoundsExactly(pattern: string, common: Table, custom: Table)
    ensures var table := common + custom;
            var res := Rounds(pattern, table, 5);
      && ((forall t :: t in Tokens(res) ==> t.Lit?) <==> HeightAtMost(Tokens(pattern), table, 5))
      && (HeightAtMost(Tokens(pattern), table, 5) ==> res == Expansion(Tokens(pattern), table, 5))
  {
    RoundsExpand(pattern, common + custom, 5);
  }
}
