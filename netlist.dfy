/**
 * The netlist token parser: a net line is `input;output;...;output` with an
 * optional trailing `;`, and each token is matched by two unanchored
 * regular expressions, `([a-zA-Z0-9]+)-([a-zA-Z0-9]+).([0-9]+)` for a part
 * and `([a-zA-Z]+).([0-9]+)` for a built-in source or sink.
 *
 * The matchers below follow the regular-expression engine exactly for these
 * two patterns: the leftmost start position wins, each `+` group is greedy
 * and gives characters back one at a time, and `.` is any character but a
 * newline (it is not escaped, so it is not restricted to a literal dot).
 */
module Netlist {
  import opened Errors
  import opened Tolerances

  /** `Part(refdes, uid, port)`: one pin of one component. */
  datatype Part = Part(refdes: string, uid: string, port: string)

  /** What a token denotes: a part pin, or a built-in source or sink with its id. */
  datatype Node = PartNode(part: Part) | Source(id: string) | Sink(id: string)

  /** `Net(input, output)`: the driving node and the driven nodes in order. */
  datatype Net = Net(input: Node, output: seq<Node>)

  // ---------------------------------------------------------------------
  // The two patterns

  /** The three character classes the patterns use (ASCII only). */
  datatype CharClass = Alnum | Alpha | Digit

  predicate InClass(c: char, k: CharClass)
  {
    match k
    case Digit => '0' <= c <= '9'
    case Alpha => 'a' <= c <= 'z' || 'A' <= c <= 'Z'
    case Alnum => 'a' <= c <= 'z' || 'A' <= c <= 'Z' || '0' <= c <= '9'
  }

  predicate AllIn(s: string, k: CharClass)
  {
    forall i :: 0 <= i < |s| ==> InClass(s[i], k)
  }

  /** Where a greedy run of class k that starts at i ends. */
  function SpanEnd(t: string, i: nat, k: CharClass): (j: nat)
    requires i <= |t|
    ensures i <= j <= |t|
    ensures AllIn(t[i..j], k)
    ensures j == |t| || !InClass(t[j], k)
    decreases |t| - i
  {
    if i < |t| && InClass(t[i], k) then
      var j := SpanEnd(t, i + 1, k);
      assert t[i..j] == [t[i]] + t[i + 1..j];
      j
    else i
  }

  /** At e, the pattern's tail `.([0-9]+)` can start: some non-newline character, then a digit. */
  predicate DotDigitAt(t: string, e: nat)
  {
    e + 1 < |t| && t[e] != '\n' && InClass(t[e + 1], Digit)
  }

  /**
   * Backtracking a greedy group that may end anywhere in lo..e: the largest
   * end at which the tail `.([0-9]+)` matches, if any.
   */
  function DotDigits(t: string, lo: nat, e: nat): (r: Option<nat>)
    requires lo <= e
    ensures r.Some? ==> lo <= r.value <= e && DotDigitAt(t, r.value)
    ensures forall m :: (if r.Some? then r.value else lo - 1) < m <= e ==> !DotDigitAt(t, m)
    decreases e
  {
    if DotDigitAt(t, e) then Some(e)
    else if e == lo then None
    else DotDigits(t, lo, e - 1)
  }

  /** The part pattern matched at position s: refdes, then `-`, then uid, any character, port. */
  function PartAt(t: string, s: nat): Option<Part>
    requires s <= |t|
  {
    var p := SpanEnd(t, s, Alnum);
    if p == s || p == |t| || t[p] != '-' then None
    else
      var q := SpanEnd(t, p + 1, Alnum);
      if q == p + 1 then None
      else match DotDigits(t, p + 2, q)
        case None => None
        case Some(e) => Some(Part(t[s..p], t[p + 1..e], t[e + 1..SpanEnd(t, e + 1, Digit)]))
  }

  /** `re.search` with the part pattern: the match at the leftmost position from s on. */
  function SearchPart(t: string, s: nat): Option<Part>
    requires s <= |t|
    decreases |t| - s
  {
    match PartAt(t, s)
    case Some(x) => Some(x)
    case None => if s == |t| then None else SearchPart(t, s + 1)
  }

  /** The source/sink pattern matched at position s: a name of letters, any character, digits. */
  function NameAt(t: string, s: nat): Option<(string, string)>
    requires s <= |t|
  {
    var p := SpanEnd(t, s, Alpha);
    if p == s then None
    else match DotDigits(t, s + 1, p)
      case None => None
      case Some(e) => Some((t[s..e], t[e + 1..SpanEnd(t, e + 1, Digit)]))
  }

  /** `re.search` with the source/sink pattern. */
  function SearchName(t: string, s: nat): Option<(string, string)>
    requires s <= |t|
    decreases |t| - s
  {
    match NameAt(t, s)
    case Some(x) => Some(x)
    case None => if s == |t| then None else SearchName(t, s + 1)
  }

  /**
   * `parse_part(part_str)`: the part pattern first; otherwise the
   * source/sink pattern, whose name is compared upper-cased with `SOURCE`
   * and `SINK`. Anything else is a parse error naming the token.
   */
  function ParsePart(t: string): (r: Result<Node>)
    ensures r.Err? ==> r.error == NetlistParse(t)
  {
    match SearchPart(t, 0)
    case Some(x) => Ok(PartNode(x))
    case None =>
      match SearchName(t, 0)
      case None => Err(NetlistParse(t))
      case Some((name, id)) =>
        if Upper(name) == "SOURCE" then Ok(Source(id))
        else if Upper(name) == "SINK" then Ok(Sink(id))
        else Err(NetlistParse(t))
  }

  // ---------------------------------------------------------------------
  // What the token parser accepts

  /** No match can start inside a prefix free of the first class character. */
  lemma {:induction false} SearchPartSkips(t: string, s: nat, n: nat)
    requires s <= n <= |t|
    requires forall i :: s <= i < n ==> !InClass(t[i], Alnum)
    ensures SearchPart(t, s) == SearchPart(t, n)
    decreases n - s
  {
    if s < n {
      SearchPartSkips(t, s + 1, n);
    }
  }

  /**
   * The part pattern at s when the token has the intended shape there: a
   * refdes up to the `-` at p, a uid up to the separator at q, and a port
   * of digits up to n.
   */
  lemma PartAtShape(t: string, s: nat, p: nat, q: nat, n: nat)
    requires s < p && p + 1 < q && q + 1 < n <= |t|
    requires forall m :: s <= m < p ==> InClass(t[m], Alnum)
    requires t[p] == '-'
    requires forall m :: p < m < q ==> InClass(t[m], Alnum)
    requires t[q] != '\n' && !InClass(t[q], Alnum)
    requires forall m :: q < m < n ==> InClass(t[m], Digit)
    requires n == |t| || !InClass(t[n], Digit)
    ensures PartAt(t, s) == Some(Part(t[s..p], t[p + 1..q], t[q + 1..n]))
  {
    SpanOver(t, s, p, Alnum);
    SpanOver(t, p + 1, q, Alnum);
    SpanOver(t, q + 1, n, Digit);
    assert DotDigitAt(t, q);
  }

  /**
   * A token `REFDES-UID.PORT`, after any characters that are not letters or
   * digits and before anything that does not start with a digit, is the part
   * with exactly those three fields.
   */
  lemma PartToken(lead: string, refdes: string, uid: string, port: string, trail: string)
    requires forall i :: 0 <= i < |lead| ==> !InClass(lead[i], Alnum)
    requires |refdes| > 0 && AllIn(refdes, Alnum)
    requires |uid| > 0 && AllIn(uid, Alnum)
    requires |port| > 0 && AllIn(port, Digit)
    requires trail == [] || !InClass(trail[0], Digit)
    ensures ParsePart(lead + refdes + "-" + uid + "." + port + trail) == Ok(PartNode(Part(refdes, uid, port)))
  {
    var t := lead + refdes + "-" + uid + "." + port + trail;
    var s := |lead|;
    var p := s + |refdes|;
    var q := p + 1 + |uid|;
    var n := q + 1 + |port|;
    PartLayout(lead, refdes, uid, port, trail);
    assert AllIn(t[s..p], Alnum) && AllIn(t[p + 1..q], Alnum) && AllIn(t[q + 1..n], Digit);
    PartTokenAt(t, s, p, q, n);
  }

  /** `ParsePart` on a token laid out as PartToken describes, in terms of positions. */
  lemma PartTokenAt(t: string, s: nat, p: nat, q: nat, n: nat)
    requires s < p && p + 1 < q && q + 1 < n <= |t|
    requires forall m :: 0 <= m < s ==> !InClass(t[..s][m], Alnum)
    requires AllIn(t[s..p], Alnum) && t[p] == '-' && AllIn(t[p + 1..q], Alnum) && t[q] == '.'
    requires AllIn(t[q + 1..n], Digit) && (n == |t| || !InClass(t[n], Digit))
    ensures ParsePart(t) == Ok(PartNode(Part(t[s..p], t[p + 1..q], t[q + 1..n])))
  {
    forall m | 0 <= m < s
      ensures !InClass(t[m], Alnum)
    {
      assert t[m] == t[..s][m];
    }
    forall m | s <= m < p
      ensures InClass(t[m], Alnum)
    {
      assert t[m] == t[s..p][m - s];
    }
    forall m | p < m < q
      ensures InClass(t[m], Alnum)
    {
      assert t[m] == t[p + 1..q][m - p - 1];
    }
    forall m | q < m < n
      ensures InClass(t[m], Digit)
    {
      assert t[m] == t[q + 1..n][m - q - 1];
    }
    PartAtShape(t, s, p, q, n);
    assert SearchPart(t, s) == Some(Part(t[s..p], t[p + 1..q], t[q + 1..n]));
    SearchPartSkips(t, 0, s);
  }

  /** Where the pieces of a part token sit. */
  lemma PartLayout(lead: string, refdes: string, uid: string, port: string, trail: string)
    ensures var t := lead + refdes + "-" + uid + "." + port + trail;
            var s, p := |lead|, |lead| + |refdes|;
            var q := p + 1 + |uid|;
            var n := q + 1 + |port|;
            && |t| == n + |trail|
            && t[..s] == lead && t[s..p] == refdes && t[p] == '-' && t[p + 1..q] == uid
            && t[q] == '.' && t[q + 1..n] == port && t[n..] == trail
            && (n < |t| ==> t[n] == trail[0])
  {
    var t := lead + refdes + "-" + uid + "." + port + trail;
    var s, p := |lead|, |lead| + |refdes|;
    var q := p + 1 + |uid|;
    assert t == lead + (refdes + ("-" + (uid + ("." + (port + trail)))));
    assert t[s..] == refdes + ("-" + (uid + ("." + (port + trail))));
    assert t[p + 1..] == uid + ("." + (port + trail));
    assert t[q + 1..] == port + trail;
  }

  /** A run of class k from i to j that stops at j is the greedy span. */
  lemma SpanOver(t: string, i: nat, j: nat, k: CharClass)
    requires i <= j <= |t|
    requires forall m :: i <= m < j ==> InClass(t[m], k)
    requires j == |t| || !InClass(t[j], k)
    ensures SpanEnd(t, i, k) == j
  {
  }

  /** The part pattern needs a `-`: without one the search finds nothing. */
  lemma {:induction false} NoDashNoPart(t: string, s: nat)
    requires s <= |t| && forall i :: s <= i < |t| ==> t[i] != '-'
    ensures SearchPart(t, s) == None
    decreases |t| - s
  {
    if s < |t| {
      NoDashNoPart(t, s + 1);
    }
  }

  /**
   * A token `NAME.N` whose letters upper-case to `SOURCE` or `SINK` (in any
   * case) is a source or a sink with id N.
   */
  lemma SourceSinkToken(name: string, id: string)
    requires |name| > 0 && AllIn(name, Alpha)
    requires |id| > 0 && AllIn(id, Digit)
    ensures var r := ParsePart(name + "." + id);
            && (Upper(name) == "SOURCE" ==> r == Ok(Source(id)))
            && (Upper(name) == "SINK" ==> r == Ok(Sink(id)))
            && (Upper(name) != "SOURCE" && Upper(name) != "SINK" ==> r == Err(NetlistParse(name + "." + id)))
  {
    var t := name + "." + id;
    var p := |name|;
    assert t[..p] == name && t[p] == '.' && t[p + 1..] == id;
    forall i | 0 <= i < |t|
      ensures t[i] != '-'
    {
      if i < p {
        assert InClass(name[i], Alpha);
      } else if i > p {
        assert InClass(id[i - p - 1], Digit);
      }
    }
    NoDashNoPart(t, 0);
    SpanOver(t, 0, p, Alpha);
    SpanOver(t, p + 1, |t|, Digit);
    assert DotDigitAt(t, p);
    assert NameAt(t, 0) == Some((t[0..p], t[p + 1..|t|]));
    assert t[0..p] == name && t[p + 1..|t|] == id;
  }

  /** The part pattern is tried first: `SOURCE-A.1` is a part whose refdes is `SOURCE`. */
  lemma PartPatternFirst()
    ensures ParsePart("SOURCE-A.1") == Ok(PartNode(Part("SOURCE", "A", "1")))
  {
    var t := "SOURCE-A.1";
    SpanOver(t, 0, 6, Alnum);
    SpanOver(t, 7, 8, Alnum);
    SpanOver(t, 9, 10, Digit);
    assert DotDigitAt(t, 8);
    assert PartAt(t, 0) == Some(Part(t[0..6], t[7..8], t[9..10]));
    assert t[0..6] == "SOURCE" && t[7..8] == "A" && t[9..10] == "1";
  }

  /**
   * Since `.` is any character, the uid gives back characters until a digit
   * can follow: `R1-U23` is the part with refdes `R1`, uid `U` and port `3`.
   */
  lemma AnyCharSeparator()
    ensures ParsePart("R1-U23") == Ok(PartNode(Part("R1", "U", "3")))
  {
    var t := "R1-U23";
    SpanOver(t, 0, 2, Alnum);
    SpanOver(t, 3, 6, Alnum);
    SpanOver(t, 5, 6, Digit);
    assert !DotDigitAt(t, 6) && !DotDigitAt(t, 5) && DotDigitAt(t, 4);
    assert DotDigits(t, 4, 6) == Some(4);
    assert PartAt(t, 0) == Some(Part(t[0..2], t[3..4], t[5..6]));
    assert t[0..2] == "R1" && t[3..4] == "U" && t[5..6] == "3";
  }

  /** Both patterns end in digits: a token without a digit matches neither. */
  lemma {:induction false} NoDigitNoMatch(t: string, s: nat)
    requires s <= |t| && forall i :: 0 <= i < |t| ==> !InClass(t[i], Digit)
    ensures SearchPart(t, s) == None && SearchName(t, s) == None
    decreases |t| - s
  {
    if s < |t| {
      NoDigitNoMatch(t, s + 1);
    }
  }

  /** Any token without a digit is a parse error, for instance the empty token or a bare `SOURCE`. */
  lemma NoDigitFails(t: string)
    requires forall i :: 0 <= i < |t| ==> !InClass(t[i], Digit)
    ensures ParsePart(t) == Err(NetlistParse(t))
    ensures ParsePart("") == Err(NetlistParse("")) && ParsePart("SOURCE") == Err(NetlistParse("SOURCE"))
  {
    NoDigitNoMatch(t, 0);
    NoDigitNoMatch("", 0);
    NoDigitNoMatch("SOURCE", 0);
  }

  // ---------------------------------------------------------------------
  // Lines

  /** `line.split(sep)`: the pieces between separators, an empty piece where two meet. */
  function Split(s: string, sep: char): (r: seq<string>)
    ensures |r| >= 1
    ensures forall i :: 0 <= i < |r| ==> sep !in r[i]
    decreases |s|
  {
    if s == [] then [[]]
    else
      var r := Split(s[..|s| - 1], sep);
      var c := s[|s| - 1];
      if c == sep then r + [[]]
      else r[..|r| - 1] + [r[|r| - 1] + [c]]
  }

  /** `sep.join(parts)`. */
  function Join(parts: seq<string>, sep: char): string
    requires |parts| >= 1
  {
    if |parts| == 1 then parts[0] else Join(parts[..|parts| - 1], sep) + [sep] + parts[|parts| - 1]
  }

  /** Splitting and joining again gives the line back. */
  lemma {:induction false} JoinSplit(s: string, sep: char)
    ensures Join(Split(s, sep), sep) == s
    decreases |s|
  {
    if s != [] {
      var init := s[..|s| - 1];
      var r := Split(init, sep);
      JoinSplit(init, sep);
      var c := s[|s| - 1];
      if c != sep {
        if |r| > 1 {
          assert (r[..|r| - 1] + [r[|r| - 1] + [c]])[..|r| - 1] == r[..|r| - 1];
        }
      }
      assert s == init + [c];
    }
  }

  /** Appending text without a separator extends the last piece. */
  lemma {:induction false} SplitExtend(x: string, y: string, sep: char)
    requires sep !in y
    ensures var r := Split(x, sep); Split(x + y, sep) == r[..|r| - 1] + [r[|r| - 1] + y]
    decreases |y|
  {
    if y == [] {
      assert x + y == x;
      var r := Split(x, sep);
      assert r[|r| - 1] + y == r[|r| - 1];
      assert r[..|r| - 1] + [r[|r| - 1]] == r;
    } else {
      var y' := y[..|y| - 1];
      var c := y[|y| - 1];
      assert c in y;
      SplitExtend(x, y', sep);
      assert (x + y)[..|x + y| - 1] == x + y';
      assert y == y' + [c];
      var r := Split(x, sep);
      var r' := Split(x + y', sep);
      assert r'[..|r'| - 1] == r[..|r| - 1];
      assert r'[|r'| - 1] + [c] == r[|r| - 1] + y;
    }
  }

  /** Splitting a join of separator-free pieces gives the pieces back. */
  lemma {:induction false} SplitJoin(parts: seq<string>, sep: char)
    requires |parts| >= 1 && forall i :: 0 <= i < |parts| ==> sep !in parts[i]
    ensures Split(Join(parts, sep), sep) == parts
    decreases |parts|
  {
    if |parts| == 1 {
      SplitExtend([], parts[0], sep);
      assert [] + parts[0] == parts[0];
    } else {
      var init := parts[..|parts| - 1];
      var last := parts[|parts| - 1];
      SplitJoin(init, sep);
      var j := Join(init, sep);
      assert (j + [sep])[..|j + [sep]| - 1] == j;
      SplitExtend(j + [sep], last, sep);
      assert [] + last == last;
      assert parts == init + [last];
    }
  }

  /** The trailing-`;` rule of `parse_net`: at most one is removed. */
  function StripSemicolon(line: string): (r: string)
    requires |line| > 0
    ensures line == r + ";" || (line == r && line[|line| - 1] != ';')
  {
    if line[|line| - 1] == ';' then line[..|line| - 1] else line
  }

  /** The tokens of a line: what is left after the trailing `;`, split at each `;`. */
  function Tokens(line: string): seq<string>
    requires |line| > 0
  {
    Split(StripSemicolon(line), ';')
  }

  /**
   * A line written as its tokens joined by `;` has exactly those tokens,
   * with or without a trailing `;` (the second needs a non-empty last token,
   * else the `;` before it would be taken as the trailing one).
   */
  lemma TokensOfJoin(parts: seq<string>)
    requires |parts| >= 1 && forall i :: 0 <= i < |parts| ==> ';' !in parts[i]
    ensures Tokens(Join(parts, ';') + ";") == parts
    ensures |parts[|parts| - 1]| > 0 ==> |Join(parts, ';')| > 0 && Tokens(Join(parts, ';')) == parts
  {
    SplitJoin(parts, ';');
    var j := Join(parts, ';');
    assert (j + ";")[..|j + ";"| - 1] == j;
    if |parts[|parts| - 1]| > 0 {
      JoinEndsWithLast(parts, ';');
    }
  }

  /** A join ends with its last piece. */
  lemma JoinEndsWithLast(parts: seq<string>, sep: char)
    requires |parts| >= 1
    ensures var j := Join(parts, sep); var last := parts[|parts| - 1];
            |j| >= |last| && j[|j| - |last|..] == last
  {
  }

  /** The tokens parsed in order: their nodes, or the error of the first token that does not parse. */
  function ParseAll(toks: seq<string>): Result<seq<Node>>
    decreases |toks|
  {
    if toks == [] then Ok([])
    else match ParseAll(toks[..|toks| - 1])
      case Err(e) => Err(e)
      case Ok(ns) =>
        match ParsePart(toks[|toks| - 1])
        case Err(e) => Err(e)
        case Ok(n) => Ok(ns + [n])
  }

  /** The first token that does not parse is token i, with this error. */
  predicate FirstFailure(toks: seq<string>, i: int, e: Error)
  {
    && 0 <= i < |toks| && e == NetlistParse(toks[i])
    && forall j :: 0 <= j < i ==> ParsePart(toks[j]).Ok?
  }

  /**
   * The tokens parse exactly when each does, into their nodes in order;
   * otherwise the error is the first failing token's.
   */
  lemma {:induction false} ParseAllMeaning(toks: seq<string>)
    ensures ParseAll(toks).Ok? <==> forall i :: 0 <= i < |toks| ==> ParsePart(toks[i]).Ok?
    ensures ParseAll(toks).Ok? ==> && |ParseAll(toks).value| == |toks|
                                   && forall i :: 0 <= i < |toks| ==> ParseAll(toks).value[i] == ParsePart(toks[i]).value
    ensures ParseAll(toks).Err? ==> exists i :: FirstFailure(toks, i, ParseAll(toks).error)
    decreases |toks|
  {
    if toks != [] {
      var init := toks[..|toks| - 1];
      ParseAllMeaning(init);
      assert forall i :: 0 <= i < |init| ==> init[i] == toks[i];
      if ParseAll(init).Err? {
        var i :| FirstFailure(init, i, ParseAll(init).error);
        assert FirstFailure(toks, i, ParseAll(toks).error);
      } else if ParsePart(toks[|toks| - 1]).Err? {
        assert FirstFailure(toks, |toks| - 1, ParseAll(toks).error);
      }
    }
  }

  /** Once a prefix of the tokens fails, the whole list fails with the same error. */
  lemma {:induction false} ParseAllErrExtends(toks: seq<string>, m: nat)
    requires m <= |toks| && ParseAll(toks[..m]).Err?
    ensures ParseAll(toks) == ParseAll(toks[..m])
    decreases |toks| - m
  {
    if m == |toks| {
      assert toks[..m] == toks;
    } else {
      var init := toks[..|toks| - 1];
      assert init[..m] == toks[..m];
      ParseAllErrExtends(init, m);
    }
  }

  /** Parsing one more token extends the parsed prefix by its node, or fails with its error. */
  lemma ParseAllStep(toks: seq<string>, lo: nat, x: nat)
    requires lo <= x < |toks| && ParseAll(toks[lo..x]).Ok?
    ensures ParsePart(toks[x]).Err? ==> ParseAll(toks[lo..x + 1]) == Err(ParsePart(toks[x]).error)
    ensures ParsePart(toks[x]).Ok? ==> ParseAll(toks[lo..x + 1]) == Ok(ParseAll(toks[lo..x]).value + [ParsePart(toks[x]).value])
  {
    assert toks[lo..x + 1][..x - lo] == toks[lo..x];
  }

  /** `Net(input, outputs)` from the tokens of a line: the first token is the input, the rest the outputs. */
  function NetOf(toks: seq<string>): Result<Net>
    requires |toks| >= 1
  {
    match ParsePart(toks[0])
    case Err(e) => Err(e)
    case Ok(input) =>
      match ParseAll(toks[1..])
      case Err(e) => Err(e)
      case Ok(outs) => Ok(Net(input, outs))
  }

  /**
   * A line's net exists exactly when every token parses; its input is the
   * first token's node and its outputs, one per further token, the others'
   * in order. Otherwise the error is the first failing token's.
   */
  lemma NetOfMeaning(toks: seq<string>)
    requires |toks| >= 1
    ensures NetOf(toks).Ok? <==> forall i :: 0 <= i < |toks| ==> ParsePart(toks[i]).Ok?
    ensures NetOf(toks).Ok? ==> && NetOf(toks).value.input == ParsePart(toks[0]).value
                                && |NetOf(toks).value.output| == |toks| - 1
                                && forall i :: 0 <= i < |toks| - 1 ==>
                                     NetOf(toks).value.output[i] == ParsePart(toks[i + 1]).value
    ensures NetOf(toks).Err? ==> exists i :: FirstFailure(toks, i, NetOf(toks).error)
  {
    var rest := toks[1..];
    ParseAllMeaning(rest);
    assert forall i :: 1 <= i < |toks| ==> toks[i] == rest[i - 1];
    if ParsePart(toks[0]).Err? {
      assert FirstFailure(toks, 0, NetOf(toks).error);
    } else if ParseAll(rest).Err? {
      var i :| FirstFailure(rest, i, ParseAll(rest).error);
      assert FirstFailure(toks, i + 1, NetOf(toks).error);
    }
  }

  /**
   * `parse_net(line)`: strip one trailing `;`, split at `;`, parse the first
   * token as the input and each further token, in order, as an output. The
   * first token that does not parse ends it with that token's error. An
   * empty line has no last character to inspect (an IndexError).
   */
  method ParseNet(line: string) returns (r: Result<Net>)
    ensures |line| == 0 ==> r == Err(IndexOutOfRange)
    ensures |line| > 0 ==> r == NetOf(Tokens(line))
  {
    if |line| == 0 {
      return Err(IndexOutOfRange);
    }
    var l := line;
    if l[|l| - 1] == ';' {
      l := l[..|l| - 1];
    }
    var components := Split(l, ';');
    assert components == Tokens(line);
    var input := ParsePart(components[0]);
    if input.Err? {
      return Err(input.error);
    }
    var outputs: seq<Node> := [];
    var x := 1;
    while x < |components|
      invariant 1 <= x <= |components|
      invariant ParseAll(components[1..x]) == Ok(outputs)
    {
      var part := ParsePart(components[x]);
      ParseAllStep(components, 1, x);
      if part.Err? {
        assert components[1..][..x] == components[1..x + 1];
        ParseAllErrExtends(components[1..], x);
        return Err(part.error);
      }
      outputs := outputs + [part.value];
      x := x + 1;
    }
    assert components[1..x] == components[1..];
    return Ok(Net(input.value, outputs));
  }
}
