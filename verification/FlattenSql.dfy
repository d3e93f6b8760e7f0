/** `flattenSql` and `flattenInto` (jest.setup.js): a nested tagged template is
    compiled into one SQL text with positional placeholders and the list of
    values they stand for.

    The reference semantics is `Expand`: the depth-first sequence of literal
    characters and bound values, with no numbering at all. The target semantics
    is `Lex` and `Scan`: positional parameters as section 4.2.2 of the PostgreSQL
    manual reads them, a dollar sign followed by a decimal number. A dollar sign
    inside a name (section 4.1.1) or after another one starts no parameter, and a
    parameter that runs into a name is an error. */
module FlattenSql {
  import opened Wrappers

  /** An interpolated value: an object with `strings` and `values` arrays is a
      nested fragment, anything else is a parameter. */
  datatype Value<V> =
    | Plain(value: V)
    | Fragment(strings: seq<string>, values: seq<Value<V>>)

  /** What a query is made of once nesting is forgotten. */
  datatype Piece<V> =
    | Literal(c: char)
    | Bound(value: V)

  lemma Associative<T>(a: seq<T>, b: seq<T>, c: seq<T>)
    ensures (a + b) + c == a + (b + c)
  {
  }

  lemma Regroup<T>(a: seq<T>, b: seq<T>, c: seq<T>, d: seq<T>)
    ensures ((a + b) + c) + d == a + ((b + c) + d)
  {
  }

  // ----- Source semantics

  /** `strings[i]` as it is concatenated to a string: a missing entry is `undefined`. */
  function Segment(strings: seq<string>, i: nat): string {
    if i < |strings| then strings[i] else "undefined"
  }

  function Literals<V>(s: string): seq<Piece<V>> {
    seq(|s|, i requires 0 <= i < |s| => Literal(s[i]))
  }

  /** Depth-first expansion of a template, up to and including the segment after
      its first `n` values. */
  function ExpandTo<V>(strings: seq<string>, values: seq<Value<V>>, n: nat): seq<Piece<V>>
    requires n <= |values|
    decreases values, n
  {
    if n == 0 then
      Literals(Segment(strings, 0))
    else
      ExpandTo(strings, values, n - 1)
      + (match values[n - 1]
         case Plain(v) => [Bound(v)]
         case Fragment(ss, vs) => ExpandTo(ss, vs, |vs|))
      + Literals(Segment(strings, n))
  }

  function Expand<V>(strings: seq<string>, values: seq<Value<V>>): seq<Piece<V>> {
    ExpandTo(strings, values, |values|)
  }

  function ExpandValue<V>(v: Value<V>): seq<Piece<V>> {
    match v
    case Plain(x) => [Bound(x)]
    case Fragment(ss, vs) => Expand(ss, vs)
  }

  lemma ExpandToStep<V>(strings: seq<string>, values: seq<Value<V>>, n: nat)
    requires 0 < n <= |values|
    ensures ExpandTo(strings, values, n)
         == ExpandTo(strings, values, n - 1) + ExpandValue(values[n - 1]) + Literals(Segment(strings, n))
  {
  }

  // ----- Target semantics

  predicate IsDigit(c: char) {
    '0' <= c <= '9'
  }

  /** Length of the longest prefix of digits. */
  function DigitRun(s: string): (n: nat)
    ensures n <= |s|
    ensures forall i :: 0 <= i < n ==> IsDigit(s[i])
    ensures n < |s| ==> !IsDigit(s[n])
  {
    if s != "" && IsDigit(s[0]) then
      var n := 1 + DigitRun(s[1..]);
      assert forall i :: 1 <= i < n ==> s[i] == s[1..][i - 1];
      n
    else 0
  }

  function DigitValue(c: char): nat
    requires IsDigit(c)
  {
    c as int - '0' as int
  }

  function ReadNat(s: string): nat
    requires forall i :: 0 <= i < |s| ==> IsDigit(s[i])
  {
    if s == "" then 0 else 10 * ReadNat(s[..|s| - 1]) + DigitValue(s[|s| - 1])
  }

  /** A text as it is read: characters and parameter numbers. */
  datatype Token = Char(c: char) | Param(n: nat)

  /** Letters, with all non-ASCII characters, and the underscore. */
  predicate NameStart(c: char) {
    'a' <= c <= 'z' || 'A' <= c <= 'Z' || c == '_' || c as int >= 0x80
  }

  /** Whether a dollar sign after `c` starts no parameter: `c` belongs to a name or
      is a dollar sign itself. `glued` says the same of the place before `c`. */
  predicate Glues(glued: bool, c: char) {
    NameStart(c) || c == '$' || (glued && IsDigit(c))
  }

  function Prepend<T>(x: T, rest: Option<seq<T>>): Option<seq<T>> {
    match rest
    case None => None
    case Some(xs) => Some([x] + xs)
  }

  predicate StartsParameter(s: string, glued: bool) {
    s != "" && s[0] == '$' && !glued && DigitRun(s[1..]) > 0
  }

  /** None is the syntax error for a parameter that runs into a name. */
  function Lex(s: string, glued: bool): Option<seq<Token>>
    decreases |s|
  {
    if s == "" then Some([])
    else if StartsParameter(s, glued) then
      var d := DigitRun(s[1..]);
      var rest := s[1..][d..];
      if rest != "" && NameStart(rest[0]) then None
      else Prepend(Param(ReadNat(s[1..][..d])), Lex(rest, false))
    else
      Prepend(Char(s[0]), Lex(s[1..], Glues(glued, s[0])))
  }

  /** None is the error for a parameter that has no value. */
  function Resolve<V>(ts: seq<Token>, values: seq<V>): Option<seq<Piece<V>>> {
    if ts == [] then Some([])
    else
      match ts[0]
      case Char(c) => Prepend(Literal(c), Resolve(ts[1..], values))
      case Param(n) =>
        if 1 <= n <= |values| then Prepend(Bound(values[n - 1]), Resolve(ts[1..], values)) else None
  }

  /** Reads a text against its parameter list. */
  function ScanFrom<V>(s: string, glued: bool, values: seq<V>): Option<seq<Piece<V>>> {
    match Lex(s, glued)
    case None => None
    case Some(ts) => Resolve(ts, values)
  }

  function Scan<V>(s: string, values: seq<V>): Option<seq<Piece<V>>> {
    ScanFrom(s, false, values)
  }

  /** The parameter numbers, left to right. */
  function Params(ts: seq<Token>): seq<nat> {
    if ts == [] then []
    else
      match ts[0]
      case Char(_) => Params(ts[1..])
      case Param(n) => [n] + Params(ts[1..])
  }

  // ----- Printing

  /** Decimal notation, as a template literal prints a non-negative integer. */
  function Decimal(n: nat): (s: string)
    ensures s != "" && forall i :: 0 <= i < |s| ==> IsDigit(s[i])
  {
    if n < 10 then ['0' + n as char] else Decimal(n / 10) + ['0' + (n % 10) as char]
  }

  /** A printed number reads as itself. */
  lemma {:induction false} DecimalReads(n: nat)
    ensures ReadNat(Decimal(n)) == n
  {
    var s := Decimal(n);
    if n < 10 {
      assert s[..0] == "";
    } else {
      DecimalReads(n / 10);
      assert s[..|s| - 1] == Decimal(n / 10);
    }
  }

  /** The text one piece contributes when `k` values are bound before it. */
  function Mark<V>(p: Piece<V>, k: nat): string {
    if p.Bound? then "$" + Decimal(k + 1) else [p.c]
  }

  /** The text of some pieces when `k` values are already bound before them. */
  function Print<V>(ps: seq<Piece<V>>, k: nat): string {
    if ps == [] then ""
    else Mark(ps[0], k) + Print(ps[1..], if ps[0].Bound? then k + 1 else k)
  }

  function Bounds<V>(ps: seq<Piece<V>>): seq<V> {
    if ps == [] then []
    else
      match ps[0]
      case Literal(_) => Bounds(ps[1..])
      case Bound(v) => [v] + Bounds(ps[1..])
  }

  /** A query under construction: its text and the values bound so far. */
  datatype Query<V> = Query(sql: string, values: seq<V>)

  function Emit<V>(q: Query<V>, ps: seq<Piece<V>>): Query<V> {
    Query(q.sql + Print(ps, |q.values|), q.values + Bounds(ps))
  }

  lemma {:induction false} BoundsAppend<V>(a: seq<Piece<V>>, b: seq<Piece<V>>)
    ensures Bounds(a + b) == Bounds(a) + Bounds(b)
  {
    if a == [] {
      assert a + b == b;
    } else {
      assert (a + b)[1..] == a[1..] + b;
      BoundsAppend(a[1..], b);
    }
  }

  lemma PrintCons<V>(p: Piece<V>, ps: seq<Piece<V>>, k: nat)
    ensures Print([p] + ps, k) == Mark(p, k) + Print(ps, if p.Bound? then k + 1 else k)
  {
    assert ([p] + ps)[1..] == ps;
  }

  lemma {:induction false} PrintAppend<V>(a: seq<Piece<V>>, b: seq<Piece<V>>, k: nat)
    ensures Print(a + b, k) == Print(a, k) + Print(b, k + |Bounds(a)|)
  {
    if a == [] {
      assert a + b == b;
    } else {
      var p, rest := a[0], a[1..];
      var k' := if p.Bound? then k + 1 else k;
      assert a == [p] + rest && a + b == [p] + (rest + b);
      PrintCons(p, rest + b, k);
      PrintCons(p, rest, k);
      PrintAppend(rest, b, k');
      Associative(Mark(p, k), Print(rest, k'), Print(b, k + |Bounds(a)|));
    }
  }

  lemma PrintLiterals<V>(s: string, k: nat)
    ensures Bounds<V>(Literals(s)) == []
    ensures Print<V>(Literals(s), k) == s
  {
    if s == "" {
    } else {
      assert Literals<V>(s)[1..] == Literals(s[1..]);
      PrintLiterals<V>(s[1..], k);
    }
  }

  // ----- The compiler

  lemma EmitTwice<V>(q: Query<V>, s: string, vs: seq<V>, t: string, ws: seq<V>)
    ensures Query(q.sql + (s + t), q.values + (vs + ws)) == Query((q.sql + s) + t, (q.values + vs) + ws)
  {
  }

  /** Emitting in two steps is emitting once: numbering continues on its own. */
  lemma EmitAppend<V>(q: Query<V>, a: seq<Piece<V>>, b: seq<Piece<V>>)
    ensures Emit(q, a + b) == Emit(Emit(q, a), b)
  {
    var k := |q.values|;
    PrintAppend(a, b, k);
    BoundsAppend(a, b);
    EmitTwice(q, Print(a, k), Bounds(a), Print(b, k + |Bounds(a)|), Bounds(b));
  }

  lemma EmitLiterals<V>(q: Query<V>, s: string)
    ensures Emit(q, Literals(s)) == Query(q.sql + s, q.values)
  {
    PrintLiterals<V>(s, |q.values|);
  }

  lemma EmitOne<V>(q: Query<V>, p: Piece<V>)
    ensures Emit(q, [p]) == Query(q.sql + Mark(p, |q.values|), q.values + Bounds([p]))
  {
    var mark := Mark(p, |q.values|);
    assert mark + "" == mark;
    assert Print([p][1..], if p.Bound? then |q.values| + 1 else |q.values|) == "";
  }

  lemma EmitBound<V>(q: Query<V>, v: V)
    ensures Emit(q, [Bound(v)]) == Query(q.sql + "$" + Decimal(|q.values| + 1), q.values + [v])
  {
    EmitOne(q, Bound(v));
    assert Bounds([Bound(v)]) == [v] + Bounds([Bound(v)][1..]) == [v];
    Associative(q.sql, "$", Decimal(|q.values| + 1));
  }

  lemma EmitStep<V>(q: Query<V>, strings: seq<string>, values: seq<Value<V>>, n: nat)
    requires 0 < n <= |values|
    ensures Emit(q, ExpandTo(strings, values, n))
         == Emit(Emit(Emit(q, ExpandTo(strings, values, n - 1)), ExpandValue(values[n - 1])),
                 Literals(Segment(strings, n)))
  {
    var done, here := ExpandTo(strings, values, n - 1), ExpandValue(values[n - 1]);
    ExpandToStep(strings, values, n);
    EmitAppend(q, done + here, Literals(Segment(strings, n)));
    EmitAppend(q, done, here);
  }

  /** The accumulator `out` that every level of the recursion shares. */
  class Out<V> {
    var sql: string
    var values: seq<V>

    constructor ()
      ensures sql == "" && values == []
    {
      sql, values := "", [];
    }

    ghost function Contents(): Query<V>
      reads this
    {
      Query(sql, values)
    }

    method Append(text: string)
      modifies this
      ensures Contents() == Emit(old(Contents()), Literals(text))
    {
      EmitLiterals(Contents(), text);
      sql := sql + text;
    }

    /** A plain value becomes the next positional placeholder. */
    method Bind(v: V)
      modifies this
      ensures Contents() == Emit(old(Contents()), [Bound(v)])
    {
      EmitBound(Contents(), v);
      values := values + [v];
      sql := sql + "$" + Decimal(|values|);
    }
  }

  /** On any accumulator, empty or not, the template is appended with its
      numbering continued after the values already bound. */
  method FlattenInto<V>(out: Out<V>, strings: seq<string>, values: seq<Value<V>>)
    modifies out
    ensures out.Contents() == Emit(old(out.Contents()), Expand(strings, values))
    decreases values
  {
    ghost var q := out.Contents();
    out.Append(Segment(strings, 0));
    for i := 0 to |values|
      invariant out.Contents() == Emit(q, ExpandTo(strings, values, i))
    {
      ghost var before := out.Contents();
      match values[i] {
        case Fragment(ss, vs) => FlattenInto(out, ss, vs);
        case Plain(v) => out.Bind(v);
      }
      assert out.Contents() == Emit(before, ExpandValue(values[i]));
      out.Append(Segment(strings, i + 1));
      EmitStep(q, strings, values, i + 1);
    }
  }

  // ----- Hazards

  /** Whether the dollar sign of a placeholder after `p` would start no parameter. */
  predicate After<V>(p: Piece<V>, glued: bool) {
    p.Literal? && Glues(glued, p.c)
  }

  predicate DigitNext<V>(ps: seq<Piece<V>>) {
    |ps| > 1 && ps[1].Literal? && IsDigit(ps[1].c)
  }

  predicate NameNext<V>(ps: seq<Piece<V>>) {
    |ps| > 1 && ps[1].Literal? && NameStart(ps[1].c)
  }

  /** A literal dollar sign that could start a parameter does not run into a digit;
      a placeholder does not follow a name or a dollar sign, and does not run into
      a digit or a name. */
  predicate HeadSafe<V>(ps: seq<Piece<V>>, glued: bool)
    requires ps != []
  {
    match ps[0]
    case Literal(c) => c == '$' && !glued ==> !DigitNext(ps)
    case Bound(_) => !glued && !DigitNext(ps) && !NameNext(ps)
  }

  predicate SafeFrom<V>(ps: seq<Piece<V>>, glued: bool) {
    ps == [] || (HeadSafe(ps, glued) && SafeFrom(ps[1..], After(ps[0], glued)))
  }

  predicate Safe<V>(ps: seq<Piece<V>>) {
    SafeFrom(ps, false)
  }

  // ----- Reading back what was printed

  lemma {:induction false} DigitRunAppend(d: string, t: string)
    requires forall i :: 0 <= i < |d| ==> IsDigit(d[i])
    ensures DigitRun(d + t) == |d| + DigitRun(t)
  {
    if d == "" {
      assert d + t == t;
    } else {
      assert (d + t)[1..] == d[1..] + t;
      DigitRunAppend(d[1..], t);
    }
  }

  lemma {:induction false} ReadNatLonger(a: string, b: string)
    requires forall i :: 0 <= i < |a| ==> IsDigit(a[i])
    requires forall i :: 0 <= i < |b| ==> IsDigit(b[i])
    ensures ReadNat(a + b) >= ReadNat(a)
    ensures b != "" && ReadNat(a) > 0 ==> ReadNat(a + b) > ReadNat(a)
  {
    if b == "" {
      assert a + b == a;
    } else {
      assert (a + b)[..|a + b| - 1] == a + b[..|b| - 1];
      ReadNatLonger(a, b[..|b| - 1]);
    }
  }

  lemma DigitsNumber(digits: string, t: string)
    requires forall i :: 0 <= i < |digits| ==> IsDigit(digits[i])
    ensures var s, e := digits + t, DigitRun(t);
            && DigitRun(s) == |digits| + e
            && s[|digits| + e..] == t[e..]
            && s[..|digits| + e] == digits + t[..e]
            && (e == 0 ==> ReadNat(digits + t[..e]) == ReadNat(digits))
            && (e > 0 && ReadNat(digits) > 0 ==> ReadNat(digits + t[..e]) > ReadNat(digits))
  {
    var e := DigitRun(t);
    DigitRunAppend(digits, t);
    ReadNatLonger(digits, t[..e]);
    assert e == 0 ==> digits + t[..e] == digits;
  }

  /** The number the lexer finds at a placeholder with text `t` behind it, and what
      it leaves of the text. */
  lemma PlaceholderNumber(n: nat, t: string)
    ensures var s := Decimal(n) + t;
            var d, e := DigitRun(s), DigitRun(t);
            && d == |Decimal(n)| + e
            && s[d..] == t[e..]
            && (e == 0 ==> ReadNat(s[..d]) == n)
            && (e > 0 && n > 0 ==> ReadNat(s[..d]) > n)
  {
    DecimalReads(n);
    DigitsNumber(Decimal(n), t);
  }

  predicate StartsWithDigit(t: string) {
    t != "" && IsDigit(t[0])
  }

  predicate StartsWithName(t: string) {
    t != "" && NameStart(t[0])
  }

  /** A text whose first token is a character starts with it. */
  lemma LexHead(s: string, glued: bool)
    ensures var r := Lex(s, glued);
            r.Some? && r.value != [] && r.value[0].Char? ==> s != "" && s[0] == r.value[0].c
  {
  }

  lemma LexLiteral(c: char, t: string, glued: bool)
    ensures var r := Lex([c] + t, glued);
            if c == '$' && !glued && StartsWithDigit(t) then r.Some? ==> r.value != [] && r.value[0].Param?
            else r == Prepend(Char(c), Lex(t, Glues(glued, c)))
  {
    assert ([c] + t)[1..] == t;
  }

  lemma LexGluedPlaceholder(n: nat, t: string)
    ensures var s := "$" + Decimal(n) + t;
            Lex(s, true) == Prepend(Char('$'), Lex(Decimal(n) + t, true))
  {
    assert ("$" + Decimal(n) + t)[1..] == Decimal(n) + t;
  }

  lemma LexPlaceholder(n: nat, t: string)
    ensures var r := Lex("$" + Decimal(n) + t, false);
            if StartsWithDigit(t) then
              var e := DigitRun(t);
              r.Some? ==> exists m: nat :: (n > 0 ==> m > n) && Lex(t[e..], false).Some?
                                      && r.value == [Param(m)] + Lex(t[e..], false).value
            else if StartsWithName(t) then r == None
            else r == Prepend(Param(n), Lex(t, false))
  {
    var s := "$" + Decimal(n) + t;
    assert s[1..] == Decimal(n) + t;
    PlaceholderNumber(n, t);
    assert StartsParameter(s, false);
    var d := DigitRun(s[1..]);
    var m := ReadNat(s[1..][..d]);
    assert s[1..][d..] == t[DigitRun(t)..];
  }

  /** The tokens the expansion should read as when `k` values are bound before it. */
  function Numbered<V>(ps: seq<Piece<V>>, k: nat): seq<Token> {
    if ps == [] then []
    else
      match ps[0]
      case Literal(c) => [Char(c)] + Numbered(ps[1..], k)
      case Bound(_) => [Param(k + 1)] + Numbered(ps[1..], k + 1)
  }

  predicate Fits<V>(t: Token, p: Piece<V>) {
    match p
    case Literal(c) => t == Char(c)
    case Bound(_) => t.Param?
  }

  /** Characters where there are literals, parameters of any number where there are
      values. */
  predicate SameShape<V>(ts: seq<Token>, ps: seq<Piece<V>>) {
    if ts == [] || ps == [] then ts == [] && ps == []
    else Fits(ts[0], ps[0]) && SameShape(ts[1..], ps[1..])
  }

  lemma {:induction false} NumberedShape<V>(ps: seq<Piece<V>>, k: nat)
    ensures SameShape(Numbered(ps, k), ps)
  {
    if ps == [] {
    } else {
      NumberedShape(ps[1..], if ps[0].Bound? then k + 1 else k);
    }
  }

  lemma PrintHead<V>(ps: seq<Piece<V>>, k: nat)
    ensures ps == [] <==> Print(ps, k) == ""
    ensures ps != [] ==> Print(ps, k)[0] == (if ps[0].Literal? then ps[0].c else '$')
  {
  }

  /** What the printed rest starts with is what comes next in the expansion. */
  lemma PrintNext<V>(ps: seq<Piece<V>>, k: nat)
    requires ps != []
    ensures StartsWithDigit(Print(ps[1..], k)) <==> DigitNext(ps)
    ensures StartsWithName(Print(ps[1..], k)) <==> NameNext(ps)
  {
    PrintHead(ps[1..], k);
  }

  ghost predicate ReadsBack<V>(ps: seq<Piece<V>>, k: nat, glued: bool) {
    var r := Lex(Print(ps, k), glued);
    if SafeFrom(ps, glued) then r == Some(Numbered(ps, k))
    else r.Some? ==> !SameShape(r.value, ps)
  }

  lemma ReadsBackLiteral<V>(ps: seq<Piece<V>>, k: nat, glued: bool)
    requires ps != [] && ps[0].Literal? && ReadsBack(ps[1..], k, After(ps[0], glued))
    ensures ReadsBack(ps, k, glued)
  {
    LexLiteral(ps[0].c, Print(ps[1..], k), glued);
    PrintNext(ps, k);
  }

  lemma ReadsBackBound<V>(ps: seq<Piece<V>>, k: nat, glued: bool)
    requires ps != [] && ps[0].Bound? && ReadsBack(ps[1..], k + 1, false)
    ensures ReadsBack(ps, k, glued)
  {
    var t := Print(ps[1..], k + 1);
    PrintNext(ps, k + 1);
    if glued {
      LexGluedPlaceholder(k + 1, t);
    } else {
      LexPlaceholder(k + 1, t);
      if StartsWithDigit(t) {
        LexHead(t[DigitRun(t)..], false);
      }
    }
  }

  /** With any number of values bound before it and any text in front, a printed
      expansion reads as its pieces exactly when it is safe there. */
  lemma {:induction false} LexPrint<V>(ps: seq<Piece<V>>, k: nat, glued: bool)
    ensures ReadsBack(ps, k, glued)
    decreases |ps|
  {
    if ps == [] {
    } else if ps[0].Literal? {
      LexPrint(ps[1..], k, After(ps[0], glued));
      ReadsBackLiteral(ps, k, glued);
    } else {
      LexPrint(ps[1..], k + 1, false);
      ReadsBackBound(ps, k, glued);
    }
  }

  // ----- Meaning preservation

  lemma {:induction false} ResolveNumbered<V>(ps: seq<Piece<V>>, k: nat, values: seq<V>)
    requires k + |Bounds(ps)| == |values| && values[k..] == Bounds(ps)
    ensures Resolve(Numbered(ps, k), values) == Some(ps)
    decreases |ps|
  {
    if ps == [] {
    } else {
      var rest := ps[1..];
      assert ps == [ps[0]] + rest;
      match ps[0] {
        case Literal(_) =>
          ResolveNumbered(rest, k, values);
        case Bound(v) =>
          assert values[k + 1..] == values[k..][1..];
          assert values[k] == values[k..][0];
          ResolveNumbered(rest, k + 1, values);
      }
    }
  }

  lemma {:induction false} ResolveShape<V>(ts: seq<Token>, values: seq<V>)
    ensures var r := Resolve(ts, values);
            r.Some? ==> SameShape(ts, r.value)
  {
    if ts == [] {
    } else {
      ResolveShape(ts[1..], values);
      var rest := Resolve(ts[1..], values);
      assert rest.Some? ==> forall p: Piece<V> :: ([p] + rest.value)[1..] == rest.value;
    }
  }

  lemma ScanPrint<V>(ps: seq<Piece<V>>, k: nat, glued: bool, values: seq<V>)
    requires k + |Bounds(ps)| == |values| && values[k..] == Bounds(ps)
    ensures ScanFrom(Print(ps, k), glued, values) == Some(ps) <==> SafeFrom(ps, glued)
  {
    LexPrint(ps, k, glued);
    ResolveNumbered(ps, k, values);
    var r := Lex(Print(ps, k), glued);
    if r.Some? {
      ResolveShape(r.value, values);
    }
  }

  /** The flattened query means what the template means exactly when the expansion
      is safe: a condition on the literal text around dollar signs and placeholders
      that a caller can inspect. */
  lemma MeaningPreservedExactly<V>(strings: seq<string>, values: seq<Value<V>>)
    ensures var ps := Expand(strings, values);
            Scan(Print(ps, 0), Bounds(ps)) == Some(ps) <==> Safe(ps)
  {
    var ps := Expand(strings, values);
    assert Bounds(ps)[0..] == Bounds(ps);
    ScanPrint(ps, 0, false, Bounds(ps));
  }

  method FlattenSql<V>(strings: seq<string>, values: seq<Value<V>>) returns (sql: string, bound: seq<V>)
    ensures sql == Print(Expand(strings, values), 0)
    ensures bound == Bounds(Expand(strings, values))
    ensures Scan(sql, bound) == Some(Expand(strings, values)) <==> Safe(Expand(strings, values))
  {
    var out := new Out<V>();
    FlattenInto(out, strings, values);
    sql, bound := out.sql, out.values;
    MeaningPreservedExactly(strings, values);
  }

  /** A template of one value: its expansion is the text before, the value, and the
      text after. */
  lemma ExpandOne<V>(before: string, v: V, after: string)
    ensures Expand([before, after], [Plain(v)]) == Literals(before) + [Bound(v)] + Literals(after)
  {
    ExpandToStep([before, after], [Plain(v)], 1);
    assert ExpandTo([before, after], [Plain(v)], 0) == Literals(before);
  }

  /** Letters, the underscore and everything outside ASCII. */
  predicate OfName(c: char) {
    0x41 <= c as int <= 0x5a || 0x61 <= c as int <= 0x7a || c as int == 0x5f || c as int >= 0x80
  }

  /** Every kind of hazard is real: a parameter typed by hand, a parameter directly after
      any letter or dollar sign, and one directly before any digit or letter. */
  lemma HazardsBreakMeaning<V>(v: V, before: string, c: char, after: string)
    requires || (before == ['$', c] && 0x30 <= c as int <= 0x39 && after == "")
             || (before == [c] && (OfName(c) || c == '$') && after == "")
             || (before == "" && after == [c] && (OfName(c) || 0x30 <= c as int <= 0x39))
    ensures var ps := Expand([before, after], [Plain(v)]);
            Scan(Print(ps, 0), Bounds(ps)) != Some(ps)
  {
    ExpandOne(before, v, after);
    var ps := Expand([before, after], [Plain(v)]);
    MeaningPreservedExactly([before, after], [Plain(v)]);
    if before == "" {
      assert ps[0] == Bound(v) && ps[1] == Literal(c);
      assert !HeadSafe(ps, false);
    } else if before == ['$', c] {
      assert ps[0] == Literal('$') && ps[1] == Literal(c);
      assert !HeadSafe(ps, false);
    } else {
      assert ps[0] == Literal(c) && ps[1..][0] == Bound(v);
      assert !HeadSafe(ps[1..], After(ps[0], false));
      assert !SafeFrom(ps[1..], After(ps[0], false));
    }
  }

  /** What usually stands next to a value: neither of a name nor a digit. */
  predicate Apart(c: char) {
    !OfName(c) && !(0x30 <= c as int <= 0x39)
  }

  /** No dollar signs in the text, and only such characters next to values. */
  predicate Plainly<V>(ps: seq<Piece<V>>) {
    && (forall i :: 0 <= i < |ps| && ps[i].Literal? ==> ps[i].c != '$')
    && (forall i :: 0 <= i < |ps| - 1 && ps[i].Literal? && ps[i + 1].Bound? ==> Apart(ps[i].c))
    && (forall i :: 0 <= i < |ps| - 1 && ps[i].Bound? && ps[i + 1].Literal? ==> Apart(ps[i + 1].c))
  }

  lemma {:induction false} PlainlySafe<V>(ps: seq<Piece<V>>, glued: bool)
    requires Plainly(ps) && (ps != [] && ps[0].Bound? ==> !glued)
    ensures SafeFrom(ps, glued)
  {
    if ps == [] {
    } else {
      var rest := ps[1..];
      assert forall i :: 0 <= i < |rest| ==> rest[i] == ps[i + 1];
      assert rest != [] ==> rest[0] == ps[0 + 1];
      PlainlySafe(rest, After(ps[0], glued));
    }
  }

  /** Such a template always means what it says. */
  lemma PlainTemplatesKeepMeaning<V>(strings: seq<string>, values: seq<Value<V>>)
    requires Plainly(Expand(strings, values))
    ensures var ps := Expand(strings, values);
            Scan(Print(ps, 0), Bounds(ps)) == Some(ps)
  {
    PlainlySafe(Expand(strings, values), false);
    MeaningPreservedExactly(strings, values);
  }

  // ----- Numbering

  /** lo, lo + 1, ..., lo + n - 1 */
  function CountUp(lo: nat, n: nat): (r: seq<nat>)
    ensures |r| == n && forall i :: 0 <= i < n ==> r[i] == lo + i
    decreases n
  {
    if n == 0 then [] else [lo] + CountUp(lo + 1, n - 1)
  }

  lemma {:induction false} NumberedParams<V>(ps: seq<Piece<V>>, k: nat)
    ensures Params(Numbered(ps, k)) == CountUp(k + 1, |Bounds(ps)|)
    decreases |ps|
  {
    if ps == [] {
    } else {
      NumberedParams(ps[1..], if ps[0].Bound? then k + 1 else k);
    }
  }

  /** After k bound values a fragment reads as its literal text with parameters k + 1,
      k + 2, ... where its values stand, exactly when it is safe there. */
  lemma PlaceholdersOfPrint<V>(ps: seq<Piece<V>>, k: nat, glued: bool)
    ensures Lex(Print(ps, k), glued) == Some(Numbered(ps, k)) <==> SafeFrom(ps, glued)
    ensures Params(Numbered(ps, k)) == CountUp(k + 1, |Bounds(ps)|)
  {
    LexPrint(ps, k, glued);
    NumberedShape(ps, k);
    NumberedParams(ps, k);
  }

  /** The placeholder numbers of a text, or None where it has a syntax error. */
  function Placeholders(s: string): Option<seq<nat>> {
    match Lex(s, false)
    case None => None
    case Some(ts) => Some(Params(ts))
  }

  predicate Dollarless<V>(ps: seq<Piece<V>>) {
    forall i :: 0 <= i < |ps| && ps[i].Literal? ==> ps[i].c != '$'
  }

  /** Digits in a name are part of the name. */
  lemma {:induction false} LexDigits(digits: string, t: string)
    requires forall i :: 0 <= i < |digits| ==> IsDigit(digits[i])
    ensures var r, q := Lex(digits + t, true), Lex(t, true);
            (r.Some? <==> q.Some?) && (r.Some? ==> Params(r.value) == Params(q.value))
  {
    if digits == "" {
      assert digits + t == t;
    } else {
      LexDigits(digits[1..], t);
      assert digits + t == [digits[0]] + (digits[1..] + t);
      LexLiteral(digits[0], digits[1..] + t, true);
    }
  }

  /** What is left of an expansion without the digits its text starts with. */
  function AfterDigits<V>(ps: seq<Piece<V>>, k: nat): (r: seq<Piece<V>>)
    ensures |r| <= |ps| && (Dollarless(ps) ==> Dollarless(r))
  {
    var d := DigitRun(Print(ps, k));
    if d <= |ps| then ps[d..] else []
  }

  /** The digits a printed expansion starts with are literal pieces. */
  lemma {:induction false} LeadingDigits<V>(ps: seq<Piece<V>>, k: nat)
    ensures var d, rest := DigitRun(Print(ps, k)), AfterDigits(ps, k);
            d <= |ps| && Print(ps, k)[d..] == Print(rest, k) && Bounds(rest) == Bounds(ps)
  {
    PrintHead(ps, k);
    if ps == [] || !StartsWithDigit(Print(ps, k)) {
      assert ps[0..] == ps;
    } else {
      LeadingDigits(ps[1..], k);
      var d := DigitRun(Print(ps[1..], k));
      assert Print(ps, k)[1..] == Print(ps[1..], k);
      assert ps[1..][d..] == ps[d + 1..];
    }
  }

  ghost predicate FewEnough<V>(ps: seq<Piece<V>>, k: nat, glued: bool) {
    var r := Lex(Print(ps, k), glued);
    r.Some? ==> |Params(r.value)| <= |Bounds(ps)|
  }

  lemma FewEnoughGlued<V>(ps: seq<Piece<V>>, k: nat)
    requires ps != [] && ps[0].Bound? && FewEnough(ps[1..], k + 1, true)
    ensures FewEnough(ps, k, true)
    ensures var r := Lex(Print(ps, k), true); r.Some? ==> |Params(r.value)| < |Bounds(ps)|
  {
    var t := Print(ps[1..], k + 1);
    LexGluedPlaceholder(k + 1, t);
    LexDigits(Decimal(k + 1), t);
  }

  lemma ParamsCons(n: nat, ts: seq<Token>)
    ensures Params([Param(n)] + ts) == [n] + Params(ts)
  {
    assert ([Param(n)] + ts)[1..] == ts;
  }

  lemma FewEnoughBound<V>(ps: seq<Piece<V>>, k: nat)
    requires ps != [] && ps[0].Bound?
    requires FewEnough(AfterDigits(ps[1..], k + 1), k + 1, false)
    ensures FewEnough(ps, k, false)
  {
    var t := Print(ps[1..], k + 1);
    LeadingDigits(ps[1..], k + 1);
    LexPlaceholder(k + 1, t);
    var r, q := Lex(Print(ps, k), false), Lex(t[DigitRun(t)..], false);
    assert !StartsWithDigit(t) ==> t[DigitRun(t)..] == t;
    if r.Some? {
      var m: nat :| q.Some? && r.value == [Param(m)] + q.value;
      ParamsCons(m, q.value);
    }
  }

  /** Literal text without dollar signs adds no parameter. */
  lemma {:induction false} NoMorePlaceholders<V>(ps: seq<Piece<V>>, k: nat, glued: bool)
    requires Dollarless(ps)
    ensures FewEnough(ps, k, glued)
    decreases |ps|
  {
    if ps == [] {
    } else if ps[0].Literal? {
      LexLiteral(ps[0].c, Print(ps[1..], k), glued);
      NoMorePlaceholders(ps[1..], k, After(ps[0], glued));
    } else if glued {
      NoMorePlaceholders(ps[1..], k + 1, true);
      FewEnoughGlued(ps, k);
    } else {
      NoMorePlaceholders(AfterDigits(ps[1..], k + 1), k + 1, false);
      FewEnoughBound(ps, k);
    }
  }

  ghost predicate OnlyIfSafe<V>(ps: seq<Piece<V>>, k: nat, glued: bool) {
    var r := Lex(Print(ps, k), glued);
    r.Some? && Params(r.value) == CountUp(k + 1, |Bounds(ps)|) ==> SafeFrom(ps, glued)
  }

  lemma OnlyIfSafeGlued<V>(ps: seq<Piece<V>>, k: nat)
    requires Dollarless(ps) && ps != [] && ps[0].Bound?
    ensures OnlyIfSafe(ps, k, true)
  {
    NoMorePlaceholders(ps[1..], k + 1, true);
    FewEnoughGlued(ps, k);
  }

  lemma OnlyIfSafeBound<V>(ps: seq<Piece<V>>, k: nat)
    requires ps != [] && ps[0].Bound? && OnlyIfSafe(ps[1..], k + 1, false)
    ensures OnlyIfSafe(ps, k, false)
  {
    var t := Print(ps[1..], k + 1);
    LexPlaceholder(k + 1, t);
    PrintNext(ps, k + 1);
    var r, q := Lex(Print(ps, k), false), Lex(t, false);
    var numbers, more := CountUp(k + 1, |Bounds(ps)|), CountUp(k + 2, |Bounds(ps[1..])|);
    assert numbers == [k + 1] + more;
    if StartsWithDigit(t) {
      if r.Some? {
        var rest := Lex(t[DigitRun(t)..], false);
        var m: nat :| m > k + 1 && rest.Some? && r.value == [Param(m)] + rest.value;
        ParamsCons(m, rest.value);
        assert Params(r.value)[0] != numbers[0];
      }
    } else if r.Some? {
      ParamsCons(k + 1, q.value);
      assert Params(r.value)[1..] == Params(q.value) && numbers[1..] == more;
    }
  }

  lemma {:induction false} NumberedOnlyIfSafe<V>(ps: seq<Piece<V>>, k: nat, glued: bool)
    requires Dollarless(ps)
    ensures OnlyIfSafe(ps, k, glued)
    decreases |ps|
  {
    if ps == [] {
    } else if ps[0].Literal? {
      LexLiteral(ps[0].c, Print(ps[1..], k), glued);
      NumberedOnlyIfSafe(ps[1..], k, After(ps[0], glued));
    } else if glued {
      OnlyIfSafeGlued(ps, k);
    } else {
      NumberedOnlyIfSafe(ps[1..], k + 1, false);
      OnlyIfSafeBound(ps, k);
    }
  }

  /** The flattened text reads as the template's literal text with parameters 1, 2,
      ..., |values|, left to right and each once, where the values stand, exactly
      when the expansion is safe. Where the literal text has no dollar sign, already
      the numbers say so. */
  lemma PlaceholdersInOrder<V>(strings: seq<string>, values: seq<Value<V>>)
    ensures var ps := Expand(strings, values);
            var numbers := CountUp(1, |Bounds(ps)|);
            && Params(Numbered(ps, 0)) == numbers
            && (Lex(Print(ps, 0), false) == Some(Numbered(ps, 0)) <==> Safe(ps))
            && (Safe(ps) ==> Placeholders(Print(ps, 0)) == Some(numbers))
            && (Dollarless(ps) ==> (Placeholders(Print(ps, 0)) == Some(numbers) <==> Safe(ps)))
  {
    var ps := Expand(strings, values);
    PlaceholdersOfPrint(ps, 0, false);
    if Dollarless(ps) {
      NumberedOnlyIfSafe(ps, 0, false);
    }
  }

  lemma LexCharParams(c: char, t: string, glued: bool)
    requires (c != '$' || glued) && Lex(t, Glues(glued, c)).Some?
    ensures var r := Lex([c] + t, glued);
            r.Some? && Params(r.value) == Params(Lex(t, Glues(glued, c)).value)
  {
    LexLiteral(c, t, glued);
    var q := Lex(t, Glues(glued, c)).value;
    assert ([Char(c)] + q)[1..] == q;
  }

  lemma DecimalOne()
    ensures Decimal(1) == "1"
  {
  }

  lemma ParamsOfAccident()
    ensures Placeholders("$1 x$1") == Some([1])
  {
    assert Lex("", true) == Some([]);
    assert [' '] + "x$1" == " x$1" && ['x'] + "$1" == "x$1" && ['$'] + "1" == "$1" && ['1'] + "" == "1";
    LexCharParams('1', "", true);
    LexCharParams('$', "1", true);
    LexCharParams('x', "$1", false);
    LexCharParams(' ', "x$1", false);
    var rest := Lex(" x$1", false);
    assert rest.Some? && Params(rest.value) == [];
    DecimalOne();
    assert "$1 x$1" == "$" + "1" + " x$1";
    LexPlaceholder(1, " x$1");
    assert !StartsWithDigit(" x$1") && !StartsWithName(" x$1");
    assert Lex("$1 x$1", false) == Prepend(Param(1), rest);
    ParamsCons(1, rest.value);
    assert [1] + Params(rest.value) == [1];
  }

  lemma FlattenOne<V>(before: string, v: V)
    ensures var ps := Expand([before, ""], [Plain(v)]);
            Print(ps, 0) == before + ("$" + Decimal(1)) && Bounds(ps) == [v] && ps == Literals(before) + [Bound(v)]
  {
    ExpandOne(before, v, "");
    assert Expand([before, ""], [Plain(v)]) == Literals(before) + [Bound(v)];
    PrintLiterals<V>(before, 0);
    EmitAppend(Query("", []), Literals(before), [Bound(v)]);
    EmitBound(Query(before, []), v);
    EmitLiterals<V>(Query("", []), before);
    var ps := Literals(before) + [Bound(v)];
    assert "" + before == before && "" + Print(ps, 0) == Print(ps, 0) && [] + Bounds(ps) == Bounds(ps);
    Associative(before, "$", Decimal(1));
  }

  /** With dollar signs in the literal text the numbers alone say less: here the only
      parameter is the one typed by hand. */
  lemma NumberedByAccident<V>(v: V)
    ensures var ps := Expand(["$1 x", ""], [Plain(v)]);
            Placeholders(Print(ps, 0)) == Some(CountUp(1, |Bounds(ps)|)) && !Safe(ps)
  {
    var ps := Expand(["$1 x", ""], [Plain(v)]);
    FlattenOne("$1 x", v);
    assert ps[0] == Literal('$') && ps[1] == Literal('1') && !HeadSafe(ps, false);
    DecimalOne();
    assert "$1 x" + ("$" + "1") == "$1 x$1";
    ParamsOfAccident();
    assert CountUp(1, 1) == [1];
  }

  // ----- Inlining

  /** One text where the last segment of the first list runs into the first
      segment of the second. */
  function Weld(a: seq<string>, b: seq<string>): (r: seq<string>)
    requires a != [] && b != []
    ensures |r| == |a| + |b| - 1
  {
    a[..|a| - 1] + [a[|a| - 1] + b[0]] + b[1..]
  }

  predicate Wellformed<V>(strings: seq<string>, values: seq<Value<V>>) {
    |strings| == |values| + 1
  }

  /** A path leads from the root through fragments to the fragment to inline; that
      fragment and its parent are well-formed templates. */
  predicate ValidPath<V>(strings: seq<string>, values: seq<Value<V>>, path: seq<nat>)
    decreases |path|
  {
    && path != []
    && path[0] < |values|
    && values[path[0]].Fragment?
    && var f := values[path[0]];
       if |path| == 1 then Wellformed(strings, values) && Wellformed(f.strings, f.values)
       else ValidPath(f.strings, f.values, path[1..])
  }

  /** The template with the fragment at the end of the path spliced into its
      parent's own arrays. */
  function InlineAt<V>(strings: seq<string>, values: seq<Value<V>>, path: seq<nat>): (seq<string>, seq<Value<V>>)
    requires ValidPath(strings, values, path)
    decreases |path|
  {
    var i := path[0];
    var f := values[i];
    if |path| == 1 then
      (Weld(Weld(strings[..i + 1], f.strings), strings[i + 1..]), values[..i] + f.values + values[i + 1..])
    else
      var (ss, vs) := InlineAt(f.strings, f.values, path[1..]);
      (strings, values[i := Fragment(ss, vs)])
  }

  lemma LiteralsAppend<V>(a: string, b: string)
    ensures Literals<V>(a + b) == Literals(a) + Literals(b)
  {
  }

  /** An expansion only looks at the values and segments up to its bound. */
  lemma {:induction false} ExpandToCongruent<V>(
      strings: seq<string>, values: seq<Value<V>>, strings': seq<string>, values': seq<Value<V>>, n: nat)
    requires n <= |values| && n <= |values'|
    requires forall i :: 0 <= i < n ==> ExpandValue(values[i]) == ExpandValue(values'[i])
    requires forall i :: 0 <= i <= n ==> Segment(strings, i) == Segment(strings', i)
    ensures ExpandTo(strings, values, n) == ExpandTo(strings', values', n)
    decreases n
  {
    if n == 0 {
    } else {
      ExpandToStep(strings, values, n);
      ExpandToStep(strings', values', n);
      ExpandToCongruent(strings, values, strings', values', n - 1);
    }
  }

  /** A missing segment is taken over as the word `undefined`, a surplus one is not
      looked at. */
  lemma OddSegments<V>(strings: seq<string>, values: seq<Value<V>>)
    ensures |strings| <= |values| ==> Expand(strings, values) == Expand(strings + ["undefined"], values)
    ensures |strings| > |values| ==> Expand(strings, values) == Expand(strings[..|values| + 1], values)
  {
    if |strings| <= |values| {
      ExpandToCongruent(strings, values, strings + ["undefined"], values, |values|);
    } else {
      ExpandToCongruent(strings, values, strings[..|values| + 1], values, |values|);
    }
  }

  lemma ExpandWeldSeam<V>(ss: seq<string>, vs: seq<Value<V>>, ts: seq<string>, ws: seq<Value<V>>)
    requires Wellformed(ss, vs) && Wellformed(ts, ws)
    ensures ExpandTo(Weld(ss, ts), vs + ws, |vs|) == Expand(ss, vs) + ExpandTo(ts, ws, 0)
  {
    var us, xs, n := Weld(ss, ts), vs + ws, |vs|;
    LiteralsAppend<V>(ss[n], ts[0]);
    assert Segment(us, n) == ss[n] + ts[0];
    if n > 0 {
      ExpandToCongruent(us, xs, ss, vs, n - 1);
      ExpandToStep(us, xs, n);
      ExpandToStep(ss, vs, n);
      Associative(ExpandTo(ss, vs, n - 1) + ExpandValue(vs[n - 1]), Literals(ss[n]), Literals(ts[0]));
    }
  }

  /** Welding two templates concatenates their expansions. */
  lemma {:induction false} ExpandWeld<V>(
      ss: seq<string>, vs: seq<Value<V>>, ts: seq<string>, ws: seq<Value<V>>, n: nat)
    requires Wellformed(ss, vs) && Wellformed(ts, ws) && n <= |ws|
    ensures ExpandTo(Weld(ss, ts), vs + ws, |vs| + n) == Expand(ss, vs) + ExpandTo(ts, ws, n)
    decreases n
  {
    var us, xs := Weld(ss, ts), vs + ws;
    if n == 0 {
      ExpandWeldSeam(ss, vs, ts, ws);
    } else {
      ExpandWeld(ss, vs, ts, ws, n - 1);
      ExpandToStep(us, xs, |vs| + n);
      ExpandToStep(ts, ws, n);
      assert xs[|vs| + n - 1] == ws[n - 1] && Segment(us, |vs| + n) == Segment(ts, n);
      Regroup(Expand(ss, vs), ExpandTo(ts, ws, n - 1), ExpandValue(ws[n - 1]), Literals(Segment(ts, n)));
    }
  }

  lemma ExpandSandwich<V>(
      before: seq<string>, vs: seq<Value<V>>, ss: seq<string>, xs: seq<Value<V>>, after: seq<string>, ws: seq<Value<V>>)
    requires Wellformed(before, vs) && Wellformed(ss, xs) && Wellformed(after, ws)
    ensures Expand(Weld(Weld(before, ss), after), vs + xs + ws)
         == Expand(before, vs) + Expand(ss, xs) + Expand(after, ws)
  {
    ExpandWeld(before, vs, ss, xs, |xs|);
    ExpandWeld(Weld(before, ss), vs + xs, after, ws, |ws|);
  }

  lemma ExpandHole<V>(v: Value<V>)
    ensures Expand(["", ""], [v]) == ExpandValue(v)
  {
    ExpandToStep(["", ""], [v], 1);
    assert ExpandTo(["", ""], [v], 0) == [];
    assert Literals<V>(Segment(["", ""], 1)) == [];
  }

  lemma WeldHole(before: seq<string>, after: seq<string>)
    requires before != [] && after != []
    ensures Weld(Weld(before, ["", ""]), after) == before + after
  {
    assert before[|before| - 1] + "" == before[|before| - 1];
    assert Weld(before, ["", ""]) == before + [""];
    assert (before + [""])[..|before|] == before;
    assert "" + after[0] == after[0];
  }

  /** A template is what stands before a value, the value, and what stands after. */
  lemma ExpandAround<V>(strings: seq<string>, values: seq<Value<V>>, i: nat)
    requires Wellformed(strings, values) && i < |values|
    ensures Expand(strings, values)
         == Expand(strings[..i + 1], values[..i]) + ExpandValue(values[i])
            + Expand(strings[i + 1..], values[i + 1..])
  {
    var v := values[i];
    ExpandHole(v);
    WeldHole(strings[..i + 1], strings[i + 1..]);
    assert strings[..i + 1] + strings[i + 1..] == strings;
    assert values[..i] + [v] + values[i + 1..] == values;
    ExpandSandwich(strings[..i + 1], values[..i], ["", ""], [v], strings[i + 1..], values[i + 1..]);
  }

  lemma {:induction false} ExpandInline<V>(strings: seq<string>, values: seq<Value<V>>, path: seq<nat>)
    requires ValidPath(strings, values, path)
    ensures var (ss, vs) := InlineAt(strings, values, path);
            Expand(ss, vs) == Expand(strings, values)
    decreases |path|
  {
    var i := path[0];
    var f := values[i];
    if |path| == 1 {
      ExpandAround(strings, values, i);
      ExpandSandwich(strings[..i + 1], values[..i], f.strings, f.values, strings[i + 1..], values[i + 1..]);
    } else {
      ExpandInline(f.strings, f.values, path[1..]);
      var (ss, vs) := InlineAt(strings, values, path);
      ExpandToCongruent(strings, values, ss, vs, |values|);
    }
  }

  /** Inlining a fragment anywhere in the tree changes neither the text nor the
      parameter list. */
  lemma InliningInvisible<V>(strings: seq<string>, values: seq<Value<V>>, path: seq<nat>)
    requires ValidPath(strings, values, path)
    ensures var (ss, vs) := InlineAt(strings, values, path);
            && Print(Expand(ss, vs), 0) == Print(Expand(strings, values), 0)
            && Bounds(Expand(ss, vs)) == Bounds(Expand(strings, values))
  {
    ExpandInline(strings, values, path);
  }
}
