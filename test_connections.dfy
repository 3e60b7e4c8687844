/**
 * String and set helpers of the system-test harness: label sets written as text and
 * read back, the `key = value` lines of the network configuration, placeholder
 * substitution in configuration templates, the label checks that decide whether the
 * test machines are up, and the exit code of a test run.
 */
module MaxTest {
  import opened Common

  // ---------------------------------------------------------------------------------
  // String sets: std::set<std::string>, kept in the order std::string compares

  /** std::string's `<`: lexicographic on character codes, a proper prefix first. */
  predicate Below(a: string, b: string)
    decreases |a|
  {
    if |a| == 0 then |b| > 0
    else if |b| == 0 then false
    else if a[0] != b[0] then a[0] < b[0]
    else Below(a[1..], b[1..])
  }

  lemma BelowIrreflexive(a: string)
    ensures !Below(a, a)
  {
  }

  lemma BelowTotal(a: string, b: string)
    ensures a == b || Below(a, b) || Below(b, a)
  {
    if |a| > 0 && |b| > 0 && a[0] == b[0] {
      BelowTotal(a[1..], b[1..]);
      if a[1..] == b[1..] {
        assert a == [a[0]] + a[1..] && b == [b[0]] + b[1..];
      }
    }
  }

  lemma BelowAsymmetric(a: string, b: string)
    ensures !(Below(a, b) && Below(b, a))
  {
  }

  lemma BelowTransitive(a: string, b: string, c: string)
    requires Below(a, b) && Below(b, c)
    ensures Below(a, c)
  {
  }

  /** A string set in iteration order: strictly increasing. */
  predicate Sorted(s: seq<string>)
  {
    forall i, j :: 0 <= i < j < |s| ==> Below(s[i], s[j])
  }

  function Elements(s: seq<string>): set<string>
  {
    set x | x in s
  }

  /** std::set::insert: the element goes to its place; an element already there is not added twice. */
  function Insert(s: seq<string>, x: string): (r: seq<string>)
    requires Sorted(s)
    ensures Sorted(r) && Elements(r) == Elements(s) + {x}
    ensures x in s ==> r == s
  {
    if |s| == 0 then [x]
    else if x == s[0] then s
    else if Below(x, s[0]) then
      forall j | 0 < j < |s| ensures Below(x, s[j]) { BelowTransitive(x, s[0], s[j]); }
      BelowIrreflexive(x);
      [x] + s
    else
      BelowTotal(x, s[0]);
      var rest := Insert(s[1..], x);
      assert s == [s[0]] + s[1..];
      forall y | y in rest ensures Below(s[0], y) {
        assert y in Elements(rest);
        if y != x {
          var j :| 0 <= j < |s[1..]| && s[1..][j] == y;
          assert s[j + 1] == y;
        }
      }
      [s[0]] + rest
  }

  // ---------------------------------------------------------------------------------
  // flatten_stringset and parse_to_stringset

  /** flatten_stringset: the elements in set order, separated by ',' and nothing else. */
  method FlattenStringSet(s: seq<string>) returns (r: string)
    ensures r == Join(s, ",")
    ensures s == [] ==> r == ""
  {
    r := "";
    var sep := "";
    var i := 0;
    while i < |s|
      invariant 0 <= i <= |s|
      invariant r == Join(s[..i], ",") && sep == (if i == 0 then "" else ",")
    {
      r := r + sep;
      r := r + s[i];
      sep := ",";
      assert s[..i + 1][..i] == s[..i];
      i := i + 1;
    }
    assert s[..|s|] == s;
  }

  /** The delimiters strtok splits on. */
  predicate IsDelim(c: char)
  {
    c == ',' || c == ';' || c == ' ' || c == '\n'
  }

  predicate NoDelim(t: string)
  {
    forall k :: 0 <= k < |t| ==> !IsDelim(t[k])
  }

  /** Length of the run of non-delimiters at the start of `s`. */
  function TokenLen(s: string): (n: nat)
    ensures n <= |s| && NoDelim(s[..n]) && (n < |s| ==> IsDelim(s[n]))
  {
    if |s| == 0 || IsDelim(s[0]) then 0
    else
      var n := 1 + TokenLen(s[1..]);
      assert forall k :: 1 <= k < n ==> s[..n][k] == s[1..][..n - 1][k - 1];
      n
  }

  /** The tokens strtok returns, in order: the maximal runs of non-delimiters. */
  function Tokens(s: string): (ts: seq<string>)
    ensures forall k :: 0 <= k < |ts| ==> |ts[k]| > 0 && NoDelim(ts[k])
    decreases |s|
  {
    if |s| == 0 then []
    else if IsDelim(s[0]) then Tokens(s[1..])
    else
      var n := TokenLen(s);
      [s[..n]] + Tokens(s[n..])
  }

  /**
   * parse_to_stringset: every token of `source` inserted into a set; an empty source
   * gives the empty set.
   */
  method ParseToStringSet(source: string) returns (r: seq<string>)
    ensures Sorted(r)
    ensures Elements(r) == Elements(Tokens(source))
    ensures forall k :: 0 <= k < |r| ==> |r[k]| > 0 && NoDelim(r[k])
    ensures source == "" ==> r == []
  {
    r := [];
    ghost var done: seq<string> := [];
    var i := 0;
    while i < |source|
      invariant 0 <= i <= |source|
      invariant Tokens(source) == done + Tokens(source[i..])
      invariant Sorted(r) && Elements(r) == Elements(done)
      invariant source == "" ==> r == []
      decreases |source| - i
    {
      if IsDelim(source[i]) {
        TokensSkipDelim(source, i);
        i := i + 1;
      } else {
        var j := i;
        while j < |source| && !IsDelim(source[j])
          invariant i <= j <= |source| && forall k :: i <= k < j ==> !IsDelim(source[k])
        {
          j := j + 1;
        }
        var token := source[i..j];
        TokensTakeRun(source, i, j);
        r := Insert(r, token);
        SnocElements(done, token);
        done := done + [token];
        i := j;
      }
    }
    assert source[|source|..] == [];
    assert done == Tokens(source);
    forall k | 0 <= k < |r| ensures |r[k]| > 0 && NoDelim(r[k]) {
      assert r[k] in Elements(r);
      assert r[k] in Tokens(source);
    }
  }

  /** A delimiter at `i` contributes no token. */
  lemma TokensSkipDelim(source: string, i: nat)
    requires i < |source| && IsDelim(source[i])
    ensures Tokens(source[i..]) == Tokens(source[i + 1..])
  {
    assert source[i..][1..] == source[i + 1..];
  }

  /** A maximal run of non-delimiters from `i` to `j` is the next token. */
  lemma TokensTakeRun(source: string, i: nat, j: nat)
    requires i < j <= |source| && (forall k :: i <= k < j ==> !IsDelim(source[k]))
    requires j < |source| ==> IsDelim(source[j])
    ensures Tokens(source[i..]) == [source[i..j]] + Tokens(source[j..])
  {
    var s := source[i..];
    assert NoDelim(s[..j - i]);
    TokenLenOfRun(s, j - i);
    assert s[j - i..] == source[j..];
    assert s[..j - i] == source[i..j];
  }

  lemma {:induction false} TokenLenOfRun(s: string, n: nat)
    requires 0 < n <= |s| && NoDelim(s[..n]) && (n < |s| ==> IsDelim(s[n]))
    ensures TokenLen(s) == n
    decreases n
  {
    assert s[0] == s[..n][0];
    if n > 1 {
      assert s[1..][..n - 1] == s[..n][1..];
      TokenLenOfRun(s[1..], n - 1);
    } else {
      assert 1 < |s| ==> s[1..][0] == s[1];
    }
  }

  lemma SnocElements(s: seq<string>, x: string)
    ensures Elements(s + [x]) == Elements(s) + {x}
  {
  }

  /** A delimiter ends the run of the text before it. */
  lemma {:induction false} TokenLenStopsAtDelim(a: string, rest: string)
    requires |rest| > 0 && IsDelim(rest[0])
    ensures TokenLen(a + rest) == TokenLen(a)
    decreases |a|
  {
    if |a| > 0 && !IsDelim(a[0]) {
      assert (a + rest)[1..] == a[1..] + rest;
      TokenLenStopsAtDelim(a[1..], rest);
    }
  }

  /** Text on either side of a delimiter splits into tokens independently. */
  lemma {:induction false} TokensAroundDelim(a: string, d: char, b: string)
    requires IsDelim(d)
    ensures Tokens(a + [d] + b) == Tokens(a) + Tokens(b)
    decreases |a|
  {
    var s := a + [d] + b;
    if |a| == 0 {
      assert s[1..] == b;
    } else if IsDelim(a[0]) {
      assert s[1..] == a[1..] + [d] + b;
      TokensAroundDelim(a[1..], d, b);
    } else {
      TokenLenStopsAtDelim(a, [d] + b);
      assert s == a + ([d] + b);
      var n := TokenLen(a);
      assert s[..n] == a[..n];
      assert s[n..] == a[n..] + [d] + b;
      TokensAroundDelim(a[n..], d, b);
    }
  }

  lemma {:induction false} TokensOfWord(w: string)
    requires |w| > 0 && NoDelim(w)
    ensures Tokens(w) == [w]
  {
    TokenLenOfRun(w, |w|);
    assert w[..|w|] == w && w[|w|..] == [];
  }

  /** Reading back what flatten_stringset wrote gives the same tokens, for non-empty delimiter-free elements. */
  lemma {:induction false} TokensOfFlattened(s: seq<string>)
    requires forall k :: 0 <= k < |s| ==> |s[k]| > 0 && NoDelim(s[k])
    ensures Tokens(Join(s, ",")) == s
    decreases |s|
  {
    if |s| == 1 {
      TokensOfWord(s[0]);
    } else if |s| > 1 {
      var init := s[..|s| - 1];
      TokensOfFlattened(init);
      TokensOfWord(s[|s| - 1]);
      TokensAroundDelim(Join(init, ","), ',', s[|s| - 1]);
      assert Join(init, ",") + "," + s[|s| - 1] == Join(init, ",") + [','] + s[|s| - 1];
      assert init + [s[|s| - 1]] == s;
    }
  }

  /** A label set survives being written with flatten_stringset and read with parse_to_stringset. */
  lemma {:induction false} FlattenParseRoundTrip(s: seq<string>)
    requires forall k :: 0 <= k < |s| ==> |s[k]| > 0 && NoDelim(s[k])
    ensures Elements(Tokens(Join(s, ","))) == Elements(s)
  {
    TokensOfFlattened(s);
  }

  // ---------------------------------------------------------------------------------
  // The network configuration file

  predicate IsSpace(c: char)
  {
    c == ' ' || c == '\t' || c == '\n' || c == '\U{B}' || c == '\U{C}' || c == '\r'
  }

  /** Leading whitespace removed. */
  function TrimLeft(s: string): (t: string)
    ensures |t| <= |s| && t == s[|s| - |t|..]
    ensures forall k :: 0 <= k < |s| - |t| ==> IsSpace(s[k])
    ensures |t| > 0 ==> !IsSpace(t[0])
    decreases |s|
  {
    if |s| > 0 && IsSpace(s[0]) then TrimLeft(s[1..]) else s
  }

  /** Trailing whitespace removed. */
  function TrimRight(s: string): (t: string)
    ensures |t| <= |s| && t == s[..|t|]
    ensures forall k :: |t| <= k < |s| ==> IsSpace(s[k])
    ensures |t| > 0 ==> !IsSpace(t[|t| - 1])
    decreases |s|
  {
    if |s| > 0 && IsSpace(s[|s| - 1]) then TrimRight(s[..|s| - 1]) else s
  }

  /** mxb::trim: whitespace removed from both ends. */
  function Trim(s: string): (t: string)
    ensures |t| <= |s|
    ensures |t| > 0 ==> !IsSpace(t[0]) && !IsSpace(t[|t| - 1])
  {
    TrimRight(TrimLeft(s))
  }

  /** Index of the first '=' in `s`, if any. */
  function FindEq(s: string): (r: Option<nat>)
    ensures r.Some? ==> r.value < |s| && s[r.value] == '=' && forall k :: 0 <= k < r.value ==> s[k] != '='
    ensures r.None? ==> forall k :: 0 <= k < |s| ==> s[k] != '='
  {
    if |s| == 0 then None
    else if s[0] == '=' then Some(0)
    else
      var r := FindEq(s[1..]);
      if r.Some? then Some(r.value + 1) else None
  }

  /**
   * One line of the network configuration: accepted only when its first '=' is neither
   * its first nor its last character and both trimmed sides are non-empty.
   */
  function ParseConfigLine(line: string): (r: Option<(string, string)>)
    ensures r.Some? <==> FindEq(line).Some? && 0 < FindEq(line).value < |line| - 1 &&
                         |Trim(line[..FindEq(line).value])| > 0 && |Trim(line[FindEq(line).value + 1..])| > 0
    ensures r.Some? ==> r.value == (Trim(line[..FindEq(line).value]), Trim(line[FindEq(line).value + 1..]))
    ensures r.Some? ==> '=' !in r.value.0
  {
    if |line| == 0 then None
    else
      var eq := FindEq(line);
      if eq.Some? && eq.value > 0 && eq.value < |line| - 1 then
        var key := Trim(line[..eq.value]);
        var val := Trim(line[eq.value + 1..]);
        if |key| > 0 && |val| > 0 then Some((key, val)) else None
      else None
  }

  /** The map after reading `lines`: a repeated key keeps the value it got first, as map::insert does. */
  function ConfigOf(lines: seq<string>): map<string, string>
  {
    if |lines| == 0 then map[]
    else
      var m := ConfigOf(lines[..|lines| - 1]);
      var p := ParseConfigLine(lines[|lines| - 1]);
      if p.Some? && p.value.0 !in m then m[p.value.0 := p.value.1] else m
  }

  /** The read loop over the lines of the file. */
  method ReadNetworkConfig(lines: seq<string>) returns (config: map<string, string>)
    ensures config == ConfigOf(lines)
  {
    config := map[];
    var i := 0;
    while i < |lines|
      invariant 0 <= i <= |lines| && config == ConfigOf(lines[..i])
    {
      assert lines[..i + 1][..i] == lines[..i];
      var line := lines[i];
      if line != "" {
        var p := ParseConfigLine(line);
        if p.Some? && p.value.0 !in config {
          config := config[p.value.0 := p.value.1];
        }
      }
      i := i + 1;
    }
    assert lines[..|lines|] == lines;
  }

  /** One more line keeps every key already read, with its value. */
  lemma ConfigOfKeeps(lines: seq<string>, key: string)
    requires |lines| > 0 && key in ConfigOf(lines[..|lines| - 1])
    ensures key in ConfigOf(lines) && ConfigOf(lines)[key] == ConfigOf(lines[..|lines| - 1])[key]
  {
    var m := ConfigOf(lines[..|lines| - 1]);
    var p := ParseConfigLine(lines[|lines| - 1]);
    if p.Some? && p.value.0 !in m {
      assert ConfigOf(lines) == m[p.value.0 := p.value.1];
    } else {
      assert ConfigOf(lines) == m;
    }
  }

  /** Later lines never change a key already read: the first value wins. */
  lemma {:induction false} FirstValueWins(lines: seq<string>, n: nat, key: string)
    requires n <= |lines| && key in ConfigOf(lines[..n])
    ensures key in ConfigOf(lines) && ConfigOf(lines)[key] == ConfigOf(lines[..n])[key]
    decreases |lines|
  {
    if n == |lines| {
      assert lines[..n] == lines;
    } else {
      var init := lines[..|lines| - 1];
      assert init[..n] == lines[..n];
      FirstValueWins(init, n, key);
      ConfigOfKeeps(lines, key);
    }
  }

  /** Every key in the map comes from an accepted line that carries it. */
  lemma {:induction false} ConfigKeysFromLines(lines: seq<string>, key: string)
    requires key in ConfigOf(lines)
    ensures exists k :: 0 <= k < |lines| && ParseConfigLine(lines[k]).Some? &&
                        ParseConfigLine(lines[k]).value == (key, ConfigOf(lines)[key])
    decreases |lines|
  {
    var init := lines[..|lines| - 1];
    if key in ConfigOf(init) {
      ConfigKeysFromLines(init, key);
      var k :| 0 <= k < |init| && ParseConfigLine(init[k]).Some? &&
               ParseConfigLine(init[k]).value == (key, ConfigOf(init)[key]);
      assert lines[k] == init[k];
    }
  }

  // ---------------------------------------------------------------------------------
  // Placeholder substitution in the configuration template

  /** The first position where `pat` occurs in `s`, as std::string::find reports it. */
  function Find(s: string, pat: string, from: nat): (r: Option<nat>)
    requires from <= |s|
    ensures r.Some? ==> from <= r.value && OccursAt(s, pat, r.value) &&
                        forall k :: from <= k < r.value ==> !OccursAt(s, pat, k)
    ensures r.None? ==> forall k :: from <= k <= |s| ==> !OccursAt(s, pat, k)
    decreases |s| - from
  {
    if OccursAt(s, pat, from) then Some(from)
    else if from == |s| then None
    else Find(s, pat, from + 1)
  }

  /** One replacement of the first occurrence. */
  function ReplaceFirst(s: string, what: string, replacement: string, pos: nat): string
    requires OccursAt(s, what, pos)
  {
    s[..pos] + replacement + s[pos + |what|..]
  }

  /** A character of the placeholder that the replacement does not contain: each round removes one. */
  predicate Shrinks(what: string, replacement: string, c: char)
  {
    c in what && c !in replacement
  }

  lemma {:induction false} ReplaceFirstShrinks(s: string, what: string, replacement: string, pos: nat, c: char)
    requires OccursAt(s, what, pos) && Shrinks(what, replacement, c)
    ensures multiset(ReplaceFirst(s, what, replacement, pos))[c] < multiset(s)[c]
  {
    assert s == s[..pos] + what + s[pos + |what|..];
    assert multiset(s) == multiset(s[..pos]) + multiset(what) + multiset(s[pos + |what|..]);
    assert multiset(what)[c] > 0;
  }

  /** The text once every occurrence has been replaced, first occurrence first, until none is left. */
  function ReplaceAll(s: string, what: string, replacement: string, c: char): (r: string)
    requires Shrinks(what, replacement, c)
    ensures !Contains(r, what)
    decreases multiset(s)[c]
  {
    var pos := Find(s, what, 0);
    if pos.Some? then
      ReplaceFirstShrinks(s, what, replacement, pos.value, c);
      ReplaceAll(ReplaceFirst(s, what, replacement, pos.value), what, replacement, c)
    else
      assert !Contains(s, what) by {
        forall i: nat | i <= |s| ensures !OccursAt(s, what, i) { }
      }
      s
  }

  /**
   * replace_text: replace the first occurrence until there is none. The loop ends only
   * when some character of the placeholder is missing from the replacement (`c`
   * witnesses that); the placeholders of the templates start with '#', which no
   * replacement contains.
   */
  method ReplaceText(contents: string, what: string, replacement: string, ghost c: char) returns (r: string)
    requires Shrinks(what, replacement, c)
    ensures r == ReplaceAll(contents, what, replacement, c)
    ensures !Contains(r, what)
    ensures !Contains(contents, what) ==> r == contents
  {
    r := contents;
    var found := true;
    while found
      invariant found ==> ReplaceAll(r, what, replacement, c) == ReplaceAll(contents, what, replacement, c)
      invariant !found ==> r == ReplaceAll(contents, what, replacement, c)
      invariant !Contains(contents, what) ==> r == contents
      decreases multiset(r)[c], if found then 1 else 0
    {
      var pos := Find(r, what, 0);
      if pos.Some? {
        ReplaceFirstShrinks(r, what, replacement, pos.value, c);
        assert Contains(r, what);
        r := ReplaceFirst(r, what, replacement, pos.value);
      } else {
        found := false;
      }
    }
  }

  // ---------------------------------------------------------------------------------
  // Labels, machines and exit codes

  const RECOGNIZED_MDBCI_LABELS: set<string> :=
    {"REPL_BACKEND", "BIG_REPL_BACKEND", "GALERA_BACKEND", "SECOND_MAXSCALE", "COLUMNSTORE_BACKEND",
     "XPAND_BACKEND"}

  /** The labels MDBCI must bring up: always MAXSCALE, plus the test's labels MDBCI knows. */
  function RequiredMdbciLabels(testLabels: set<string>): (r: set<string>)
    ensures "MAXSCALE" in r
    ensures forall l :: l in r && l != "MAXSCALE" ==> l in testLabels && l in RECOGNIZED_MDBCI_LABELS
    ensures forall l :: l in testLabels && l in RECOGNIZED_MDBCI_LABELS ==> l in r
  {
    {"MAXSCALE"} + (testLabels * RECOGNIZED_MDBCI_LABELS)
  }

  /** required_machines_are_running: no required label is missing from the configured ones. */
  function RequiredMachinesAreRunning(required: set<string>, configured: set<string>): (running: bool)
    ensures running <==> required <= configured
  {
    var missing := required - configured;
    assert missing == {} <==> required <= configured by {
      if missing != {} {
        var l :| l in missing;
      } else {
        assert forall l :: l in required ==> l !in missing;
      }
    }
    missing == {}
  }

  /** A test that only asks for labels MDBCI does not know needs nothing but a MaxScale machine. */
  lemma {:induction false} UnknownLabelsNeedOnlyMaxScale(testLabels: set<string>, configured: set<string>)
    requires testLabels * RECOGNIZED_MDBCI_LABELS == {}
    ensures RequiredMachinesAreRunning(RequiredMdbciLabels(testLabels), configured) <==> "MAXSCALE" in configured
  {
    assert RequiredMdbciLabels(testLabels) == {"MAXSCALE"};
  }

  /** run_test: a failed start-up wins over a failed clean-up, which wins over the test's error count. */
  function RunTestResult(initRc: int, cleanupRc: int, testErrors: int): (rc: int)
    ensures initRc != 0 ==> rc == initRc
    ensures initRc == 0 && cleanupRc != 0 ==> rc == cleanupRc
    ensures initRc == 0 && cleanupRc == 0 ==> rc == testErrors
    ensures rc == 0 <==> initRc == 0 && cleanupRc == 0 && testErrors == 0
  {
    if initRc != 0 then initRc
    else if cleanupRc != 0 then cleanupRc
    else testErrors
  }

  /** n_maxscales: none without the first MaxScale, otherwise one or two. */
  function NMaxscales<T>(first: Option<T>, second: Option<T>): (n: nat)
    ensures n == 0 <==> first.None?
    ensures n == 2 <==> first.Some? && second.Some?
    ensures n <= 2
  {
    if first.Some? then (if second.Some? then 2 else 1) else 0
  }

  /** my_maxscale: the first or second MaxScale, nothing for any other index. */
  function MyMaxscale<T>(m: int, first: Option<T>, second: Option<T>): (r: Option<T>)
    ensures m != 0 && m != 1 ==> r.None?
    ensures m == 0 ==> r == first
    ensures m == 1 ==> r == second
  {
    if m == 0 then first else if m == 1 then second else None
  }

  /** Every index below n_maxscales names a MaxScale. */
  lemma {:induction false} CountedMaxscalesExist<T>(first: Option<T>, second: Option<T>, m: int)
    requires 0 <= m < NMaxscales(first, second)
    ensures MyMaxscale(m, first, second).Some?
  {
  }
}
