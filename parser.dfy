/**
 * The `.mhmat` line parser: a settings record filled from the keyword
 * defaults, then overwritten line by line, with warnings for unknown
 * keywords and an abort, naming the line, for a malformed known one.
 *
 * `StepLine` says what one line does and `ParsePrefix` folds it over the
 * first `n` lines; `ParseLines` is the loop that reads the file, proved to
 * compute that fold.
 */
module Parser {
  import opened Wrappers
  import opened Text
  import opened Keywords

  /** The settings record: the file's base name and one value per keyword. */
  datatype Settings = Settings(name: string, fields: map<Keyword, Value>)

  /** The fatal "bad value for keyword" condition. */
  datatype Failure = BadValue(file: string, line: nat, keyword: string)

  /** The non-fatal "unrecognized keyword" diagnostic. */
  datatype Warning = UnrecognizedKeyword(file: string, line: nat, keyword: string)

  /** Where parsing stands after some lines: still reading, or aborted. The
      warnings already written stay written either way. */
  datatype ParseState =
    | Reading(settings: Settings, warnings: seq<Warning>)
    | Failed(failure: Failure, warnings: seq<Warning>)

  /** What a line is, once stripped, split and its keyword looked up: blank
      or a comment; a keyword of `valid_keywords` with its value tokens; a
      keyword of `ignored_keywords`; or any other keyword. */
  datatype LineKind =
    | Skip
    | Known(k: Keyword, rest: seq<string>)
    | Ignored
    | Unrecognized(keyword: string)

  /** Every field is present and holds a value of its converter's shape. */
  predicate WellFormed(s: Settings)
  {
    forall k: Keyword :: k in s.fields && Fits(EntryOf(k), s.fields[k])
  }

  /** Every field at its table default; the name is the file's base name. */
  function Defaults(path: string): Settings
  {
    Settings(Basename(path), DefaultFields(AllKeywords))
  }

  /** The default of every keyword in `ks`, set one after the other. */
  function DefaultFields(ks: seq<Keyword>): map<Keyword, Value>
  {
    if ks == [] then map[]
    else DefaultFields(ks[..|ks| - 1])[ks[|ks| - 1] := EntryOf(ks[|ks| - 1]).default]
  }

  /** Setting the defaults of `ks` gives exactly those keywords their
      table default. */
  lemma {:induction false} DefaultFieldsHold(ks: seq<Keyword>)
    ensures DefaultFields(ks).Keys == set k | k in ks
    ensures forall k :: k in ks ==> DefaultFields(ks)[k] == EntryOf(k).default
  {
    if ks != [] {
      var init := ks[..|ks| - 1];
      DefaultFieldsHold(init);
      assert ks == init + [ks[|ks| - 1]];
    }
  }

  /** The starting record holds every field at its default, so it already
      satisfies the settings invariant. */
  lemma DefaultsWellFormed(path: string)
    ensures WellFormed(Defaults(path))
    ensures forall k: Keyword :: Defaults(path).fields[k] == EntryOf(k).default
  {
    DefaultFieldsHold(AllKeywords);
    var s := Defaults(path);
    forall k: Keyword ensures k in s.fields && Fits(EntryOf(k), s.fields[k]) && s.fields[k] == EntryOf(k).default {
      KeywordListed(k);
      DefaultFits(k);
    }
  }

  /** A stripped line that is blank or a comment. */
  predicate IsBlankOrComment(line: string)
  {
    line == "" || StartsWith(line, "#") || StartsWith(line, "//")
  }

  /** Strip the line, skip it if blank or a comment, else split it and look
      its first token up in the two keyword tables. */
  function Classify(line: string): LineKind
  {
    var stripped := Strip(line);
    if IsBlankOrComment(stripped) then Skip
    else
      var items := Words(stripped);
      var keyword := items[0];
      match KeywordNamed(keyword)
      case Some(k) => Known(k, items[1..])
      case None => if keyword in IgnoredKeywords then Ignored else Unrecognized(keyword)
  }

  /** What a line's kind says about its text. */
  lemma ClassifySound(line: string)
    ensures Classify(line).Skip? <==> IsBlankOrComment(Strip(line))
    ensures Classify(line).Known? ==>
              Words(Strip(line)) == [Spelling(Classify(line).k)] + Classify(line).rest
    ensures Classify(line).Ignored? ==>
              && Words(Strip(line)) != []
              && Words(Strip(line))[0] in IgnoredKeywords
              && KeywordNamed(Words(Strip(line))[0]).None?
    ensures Classify(line).Unrecognized? ==>
              && Words(Strip(line)) != []
              && Words(Strip(line))[0] == Classify(line).keyword
              && KeywordNamed(Classify(line).keyword).None?
              && Classify(line).keyword !in IgnoredKeywords
  {
  }

  /** A line written as a keyword and its value tokens, with single spaces
      between them, is that keyword with exactly those tokens. */
  lemma ClassifyJoined(k: Keyword, rest: seq<string>)
    requires forall i :: 0 <= i < |rest| ==> rest[i] != [] && NoSpace(rest[i])
    ensures Classify(Join([Spelling(k)] + rest, " ")) == Known(k, rest)
  {
    SpellingIsWord(k);
    KeywordFound(k);
    ClassifyWords(Spelling(k), k, rest);
  }

  /** `ClassifyJoined` for any word that names the keyword. */
  lemma ClassifyWords(kw: string, k: Keyword, rest: seq<string>)
    requires kw != [] && NoSpace(kw) && 'a' <= kw[0] <= 'z' && KeywordNamed(kw) == Some(k)
    requires forall i :: 0 <= i < |rest| ==> rest[i] != [] && NoSpace(rest[i])
    ensures Classify(Join([kw] + rest, " ")) == Known(k, rest)
  {
    var ws := [kw] + rest;
    assert forall i :: 0 <= i < |ws| ==> ws[i] != [] && NoSpace(ws[i]) by {
      forall i | 0 <= i < |ws|
        ensures ws[i] != [] && NoSpace(ws[i])
      {
        if i > 0 {
          assert ws[i] == rest[i - 1];
        }
      }
    }
    SplitJoined(ws);
    NotBlankOrComment(Join(ws, " "));
  }

  /** A line that starts with a lower-case letter is neither blank nor a
      comment. */
  lemma NotBlankOrComment(line: string)
    requires line != [] && 'a' <= line[0] <= 'z'
    ensures !IsBlankOrComment(line)
  {
    assert line[..1][0] == line[0];
    assert |line| >= 2 ==> line[..2][0] == line[0];
  }

  /** What line number `linenr`, once classified, does to the parse. */
  function StepLine(host: Host, path: string, linenr: nat, line: LineKind, st: ParseState): (r: ParseState)
    ensures st.Failed? ==> r == st
    ensures |st.warnings| <= |r.warnings|
  {
    match st
    case Failed(_, _) => st
    case Reading(settings, warnings) =>
      match line
      case Skip => st
      case Ignored => st
      case Unrecognized(keyword) =>
        Reading(settings, warnings + [UnrecognizedKeyword(path, linenr, keyword)])
      case Known(k, rest) =>
        if |rest| != EntryOf(k).nrArgs then Failed(BadValue(path, linenr, Spelling(k)), warnings)
        else
          match Convert(host, k, rest)
          case Some(v) => Reading(settings.(fields := settings.fields[k := v]), warnings)
          case None => Failed(BadValue(path, linenr, Spelling(k)), warnings)
  }

  /** One line of the file as the loop in `execute` reads it: stripped,
      skipped when blank or a comment, else split, with its first token
      looked up in `valid_keywords` and then in `ignored_keywords`. */
  method ClassifyLine(lines: seq<string>, i: nat) returns (kind: LineKind)
    requires i < |lines|
    ensures kind == Tokenize(lines)[i]
  {
    TokenizeAt(lines, i);
    var line := Strip(lines[i]);
    if line == "" || StartsWith(line, "#") || StartsWith(line, "//") {
      return Skip;
    }
    var items := Words(line);
    var keyword := items[0];
    match KeywordNamed(keyword)
    case Some(k) =>
      kind := Known(k, items[1..]);
    case None =>
      if keyword !in IgnoredKeywords {
        kind := Unrecognized(keyword);
      } else {
        kind := Ignored;
      }
  }

  /** `f` applied to each element, in order. */
  function MapEach<A, B>(f: A -> B, xs: seq<A>): seq<B>
  {
    seq(|xs|, i requires 0 <= i < |xs| => f(xs[i]))
  }

  /** Mapping over a sequence with one more element in front. */
  lemma MapEachCons<A, B>(f: A -> B, x: A, xs: seq<A>)
    ensures MapEach(f, [x] + xs) == [f(x)] + MapEach(f, xs)
  {
    var t := MapEach(f, [x] + xs);
    assert ([x] + xs)[0] == x;
    forall i | 1 <= i < |t|
      ensures t[i] == MapEach(f, xs)[i - 1]
    {
      assert ([x] + xs)[i] == xs[i - 1];
    }
  }

  /** Mapping picks each element's image by position. */
  lemma MapEachAt<A, B>(f: A -> B, xs: seq<A>, i: nat)
    requires i < |xs|
    ensures |MapEach(f, xs)| == |xs| && MapEach(f, xs)[i] == f(xs[i])
  {
  }

  /** Every line of the file, classified. */
  function Tokenize(lines: seq<string>): seq<LineKind>
  {
    MapEach(Classify, lines)
  }

  /** Line `i` of the file is classified on its own. */
  lemma TokenizeAt(lines: seq<string>, i: nat)
    requires i < |lines|
    ensures |Tokenize(lines)| == |lines| && Tokenize(lines)[i] == Classify(lines[i])
  {
    MapEachAt(Classify, lines, i);
  }

  /** The state after the first `n` classified lines (numbered from 1). */
  function ParsePrefix(host: Host, path: string, kinds: seq<LineKind>, n: nat): ParseState
    requires n <= |kinds|
  {
    if n == 0 then Reading(Defaults(path), [])
    else StepLine(host, path, n, kinds[n - 1], ParsePrefix(host, path, kinds, n - 1))
  }

  /** The state once the whole file has been read. */
  function ParseFile(host: Host, path: string, lines: seq<string>): ParseState
  {
    ParsePrefix(host, path, Tokenize(lines), |lines|)
  }

  function ToState(r: Result<Settings, Failure>, warnings: seq<Warning>): ParseState
  {
    match r
    case Success(s) => Reading(s, warnings)
    case Failure(f) => Failed(f, warnings)
  }

  /** The loop that starts the settings record from the defaults, one
      keyword at a time in table order. */
  method InitialSettings(path: string) returns (s: Settings)
    ensures s == Defaults(path)
  {
    var fields: map<Keyword, Value> := map[];
    var i := 0;
    while i < |AllKeywords|
      invariant 0 <= i <= |AllKeywords|
      invariant fields == DefaultFields(AllKeywords[..i])
    {
      var k := AllKeywords[i];
      assert AllKeywords[..i + 1][..i] == AllKeywords[..i];
      fields := fields[k := EntryOf(k).default];
      i := i + 1;
    }
    assert AllKeywords[..i] == AllKeywords;
    s := Settings(Basename(path), fields);
  }

  /** Once parsing has failed, later lines change nothing. */
  lemma {:induction false} FailedIsFinal(host: Host, path: string, kinds: seq<LineKind>, n: nat, m: nat)
    requires n <= m <= |kinds|
    requires ParsePrefix(host, path, kinds, n).Failed?
    ensures ParsePrefix(host, path, kinds, m) == ParsePrefix(host, path, kinds, n)
    decreases m - n
  {
    if m > n {
      FailedIsFinal(host, path, kinds, n, m - 1);
    }
  }

  /** What the loop in `execute` does with a classified line: check and
      convert a known keyword's values, warn about an unrecognized one, or
      pass over the line. */
  method ReadLine(host: Host, path: string, linenr: nat, kind: LineKind, settings: Settings, warnings: seq<Warning>)
    returns (st: ParseState)
    ensures st == StepLine(host, path, linenr, kind, Reading(settings, warnings))
  {
    st := Reading(settings, warnings);
    match kind
    case Known(k, rest) =>
      var converted := if |rest| == EntryOf(k).nrArgs then Convert(host, k, rest) else None;
      if converted.None? {
        return Failed(BadValue(path, linenr, Spelling(k)), warnings);
      }
      st := Reading(settings.(fields := settings.fields[k := converted.value]), warnings);
    case Unrecognized(keyword) =>
      st := Reading(settings, warnings + [UnrecognizedKeyword(path, linenr, keyword)]);
    case Ignored =>
    case Skip =>
  }

  /** Line number `linenr` of the file, classified and read. */
  method NextLine(host: Host, path: string, lines: seq<string>, linenr: nat, settings: Settings, warnings: seq<Warning>)
    returns (st: ParseState)
    requires 0 < linenr <= |lines|
    requires ParsePrefix(host, path, Tokenize(lines), linenr - 1) == Reading(settings, warnings)
    ensures st == ParsePrefix(host, path, Tokenize(lines), linenr)
  {
    var kind := ClassifyLine(lines, linenr - 1);
    st := ReadLine(host, path, linenr, kind, settings, warnings);
  }

  /** Read the file line by line, as `execute` does before it builds the
      material: the settings, or the failure of the first bad line, and
      the warnings written on the way. */
  method ParseLines(host: Host, path: string, lines: seq<string>)
    returns (r: Result<Settings, Failure>, warnings: seq<Warning>)
    ensures ToState(r, warnings) == ParseFile(host, path, lines)
  {
    var settings := InitialSettings(path);
    ghost var kinds := Tokenize(lines);
    warnings := [];
    var linenr := 0;
    assert |kinds| == |lines|;
    assert ParsePrefix(host, path, kinds, 0) == Reading(settings, warnings);
    while linenr < |lines|
      invariant 0 <= linenr <= |lines|
      invariant ParsePrefix(host, path, kinds, linenr) == Reading(settings, warnings)
    {
      linenr := linenr + 1;
      var st := NextLine(host, path, lines, linenr, settings, warnings);
      if st.Failed? {
        r, warnings := Failure(st.failure), st.warnings;
        FailedIsFinal(host, path, kinds, linenr, |lines|);
        return;
      }
      settings, warnings := st.settings, st.warnings;
    }
    r := Success(settings);
  }

  /** A known keyword line the parse rejects: wrong number of value tokens,
      or tokens the keyword's converter refuses. */
  predicate Rejected(host: Host, k: Keyword, rest: seq<string>)
  {
    |rest| != EntryOf(k).nrArgs || Convert(host, k, rest).None?
  }

  /** The value of the last line among the first `n` that sets keyword `k`
      and is accepted, if there is one. */
  function LastSet(host: Host, kinds: seq<LineKind>, n: nat, k: Keyword): Option<Value>
    requires n <= |kinds|
  {
    if n == 0 then None
    else if kinds[n - 1].Known? && kinds[n - 1].k == k && !Rejected(host, k, kinds[n - 1].rest)
    then Convert(host, k, kinds[n - 1].rest)
    else LastSet(host, kinds, n - 1, k)
  }

  /** One accepted line keeps the settings invariant and the name. */
  lemma StepKeepsWellFormed(host: Host, path: string, linenr: nat, line: LineKind, st: ParseState)
    requires st.Reading? && WellFormed(st.settings)
    requires StepLine(host, path, linenr, line, st).Reading?
    ensures StepLine(host, path, linenr, line, st).settings.name == st.settings.name
    ensures WellFormed(StepLine(host, path, linenr, line, st).settings)
  {
    if line.Known? {
      var k := line.k;
      var v := Convert(host, k, line.rest).value;
      var fields := StepLine(host, path, linenr, line, st).settings.fields;
      assert fields == st.settings.fields[k := v];
      forall k' ensures k' in fields && Fits(EntryOf(k'), fields[k']) {
        if k' != k {
          assert k' in st.settings.fields && Fits(EntryOf(k'), st.settings.fields[k']);
        }
      }
    }
  }

  /** While no line has failed, every field holds a value of its
      converter's shape and the name is the file's base name. */
  lemma {:induction false} ParseKeepsWellFormed(host: Host, path: string, kinds: seq<LineKind>, n: nat)
    requires n <= |kinds|
    requires ParsePrefix(host, path, kinds, n).Reading?
    ensures WellFormed(ParsePrefix(host, path, kinds, n).settings)
    ensures ParsePrefix(host, path, kinds, n).settings.name == Basename(path)
  {
    if n == 0 {
      DefaultsWellFormed(path);
    } else {
      ParseKeepsWellFormed(host, path, kinds, n - 1);
      StepKeepsWellFormed(host, path, n, kinds[n - 1], ParsePrefix(host, path, kinds, n - 1));
    }
  }

  /** One accepted line sets only its own keyword's field. */
  lemma StepSetsOneField(host: Host, path: string, linenr: nat, line: LineKind, st: ParseState, k: Keyword)
    requires st.Reading? && k in st.settings.fields
    requires StepLine(host, path, linenr, line, st).Reading?
    ensures k in StepLine(host, path, linenr, line, st).settings.fields
    ensures StepLine(host, path, linenr, line, st).settings.fields[k] ==
            if line.Known? && line.k == k then Convert(host, k, line.rest).value else st.settings.fields[k]
  {
  }

  /** While no line has failed, each field holds the value of the last
      accepted line that set it, or its default when no line did. */
  lemma {:induction false} LastAssignmentWins(host: Host, path: string, kinds: seq<LineKind>, n: nat, k: Keyword)
    requires n <= |kinds|
    requires ParsePrefix(host, path, kinds, n).Reading?
    ensures k in ParsePrefix(host, path, kinds, n).settings.fields
    ensures ParsePrefix(host, path, kinds, n).settings.fields[k] ==
            match LastSet(host, kinds, n, k)
            case Some(v) => v
            case None => EntryOf(k).default
  {
    if n == 0 {
      DefaultsWellFormed(path);
    } else {
      var prev := ParsePrefix(host, path, kinds, n - 1);
      LastAssignmentWins(host, path, kinds, n - 1, k);
      StepSetsOneField(host, path, n, kinds[n - 1], prev, k);
    }
  }

  /** Warnings in strictly increasing line order. */
  predicate InLineOrder(ws: seq<Warning>)
  {
    forall i, j :: 0 <= i < j < |ws| ==> ws[i].line < ws[j].line
  }

  /** Every warning is about one of the first `n` lines, each an
      unrecognized keyword line of the file. */
  predicate AboutUnrecognizedLines(ws: seq<Warning>, path: string, kinds: seq<LineKind>, n: nat)
    requires n <= |kinds|
  {
    forall i :: 0 <= i < |ws| ==>
      ws[i].file == path && 1 <= ws[i].line <= n && kinds[ws[i].line - 1] == Unrecognized(ws[i].keyword)
  }

  /** Each warning names an unrecognized keyword line, in file order, and
      while no line has failed there is one per such line. */
  lemma {:induction false} WarningsAreUnrecognizedLines(host: Host, path: string, kinds: seq<LineKind>, n: nat)
    requires n <= |kinds|
    ensures AboutUnrecognizedLines(ParsePrefix(host, path, kinds, n).warnings, path, kinds, n)
    ensures InLineOrder(ParsePrefix(host, path, kinds, n).warnings)
    ensures ParsePrefix(host, path, kinds, n).Reading? ==>
            |ParsePrefix(host, path, kinds, n).warnings| == CountUnrecognized(kinds, n)
  {
    if n > 0 {
      WarningsAreUnrecognizedLines(host, path, kinds, n - 1);
      StepWarnings(host, path, n, kinds[n - 1], ParsePrefix(host, path, kinds, n - 1));
      WarningAppended(ParsePrefix(host, path, kinds, n - 1).warnings, path, kinds, n);
    }
  }

  /** Appending a warning for line `n`, when line `n` is an unrecognized
      keyword, keeps both properties one line further. */
  lemma WarningAppended(ws: seq<Warning>, path: string, kinds: seq<LineKind>, n: nat)
    requires 0 < n <= |kinds|
    requires AboutUnrecognizedLines(ws, path, kinds, n - 1) && InLineOrder(ws)
    ensures AboutUnrecognizedLines(ws, path, kinds, n)
    ensures kinds[n - 1].Unrecognized? ==>
            var ws' := ws + [UnrecognizedKeyword(path, n, kinds[n - 1].keyword)];
            AboutUnrecognizedLines(ws', path, kinds, n) && InLineOrder(ws')
  {
  }

  /** One line adds a warning exactly when it is an unrecognized keyword
      read before any failure. */
  lemma StepWarnings(host: Host, path: string, linenr: nat, line: LineKind, st: ParseState)
    ensures StepLine(host, path, linenr, line, st).warnings ==
            st.warnings + if st.Reading? && line.Unrecognized? then [UnrecognizedKeyword(path, linenr, line.keyword)] else []
    ensures StepLine(host, path, linenr, line, st).Reading? ==> st.Reading?
  {
  }

  /** Line `n + 1` of a file still being read: a blank, comment or ignored
      line changes nothing; an unrecognized keyword keeps the settings,
      keeps reading and adds exactly one warning naming that line. */
  lemma QuietLine(host: Host, path: string, kinds: seq<LineKind>, n: nat)
    requires n < |kinds| && ParsePrefix(host, path, kinds, n).Reading?
    ensures kinds[n].Skip? || kinds[n].Ignored? ==>
              ParsePrefix(host, path, kinds, n + 1) == ParsePrefix(host, path, kinds, n)
    ensures kinds[n].Unrecognized? ==>
              ParsePrefix(host, path, kinds, n + 1) ==
              Reading(ParsePrefix(host, path, kinds, n).settings,
                      ParsePrefix(host, path, kinds, n).warnings + [UnrecognizedKeyword(path, n + 1, kinds[n].keyword)])
  {
  }

  /** The number of unrecognized keyword lines among the first `n`. */
  function CountUnrecognized(kinds: seq<LineKind>, n: nat): nat
    requires n <= |kinds|
  {
    if n == 0 then 0
    else CountUnrecognized(kinds, n - 1) + if kinds[n - 1].Unrecognized? then 1 else 0
  }

  /** A failed parse names the first rejected line: every line before it
      was read, it carries a known keyword, the failure quotes that
      keyword, and nothing after it changed the outcome. */
  lemma {:induction false} FailureIsFirstRejectedLine(host: Host, path: string, kinds: seq<LineKind>, n: nat)
    requires n <= |kinds|
    requires ParsePrefix(host, path, kinds, n).Failed?
    ensures var f := ParsePrefix(host, path, kinds, n).failure;
            && f.file == path && 1 <= f.line <= n
            && ParsePrefix(host, path, kinds, f.line - 1).Reading?
            && kinds[f.line - 1].Known?
            && f.keyword == Spelling(kinds[f.line - 1].k)
            && Rejected(host, kinds[f.line - 1].k, kinds[f.line - 1].rest)
            && ParsePrefix(host, path, kinds, f.line) == ParsePrefix(host, path, kinds, n)
  {
    assert n > 0;
    var prev := ParsePrefix(host, path, kinds, n - 1);
    if prev.Failed? {
      FailureIsFirstRejectedLine(host, path, kinds, n - 1);
    }
  }

  /** A known keyword whose line is rejected, because it has the wrong
      number of value tokens or its converter refuses the value, aborts
      the parse at that line, whatever the later lines hold. */
  lemma {:induction false} RejectedLineAborts(host: Host, path: string, kinds: seq<LineKind>, n: nat, m: nat)
    requires n < m <= |kinds|
    requires ParsePrefix(host, path, kinds, n).Reading?
    requires kinds[n].Known? && Rejected(host, kinds[n].k, kinds[n].rest)
    ensures ParsePrefix(host, path, kinds, m) ==
            Failed(BadValue(path, n + 1, Spelling(kinds[n].k)), ParsePrefix(host, path, kinds, n).warnings)
  {
    FailedIsFinal(host, path, kinds, n + 1, m);
  }

  /** A `shininess` line whose token does not parse as a float, or parses
      to a value outside [0, 1], aborts the parse at that line. */
  lemma BadShininessAborts(host: Host, path: string, kinds: seq<LineKind>, n: nat, m: nat, w: string)
    requires n < m <= |kinds|
    requires ParsePrefix(host, path, kinds, n).Reading?
    requires kinds[n] == Known(Shininess, [w])
    requires host.parseFloat(w).None? || host.parseFloat(w).value < 0.0 || host.parseFloat(w).value > 1.0
    ensures ParsePrefix(host, path, kinds, m) ==
            Failed(BadValue(path, n + 1, "shininess"), ParsePrefix(host, path, kinds, n).warnings)
  {
    ShininessInRange(host, w);
    RejectedLineAborts(host, path, kinds, n, m);
  }

  /** A texture (or any one-token) keyword whose value is written as two
      words, as a file name holding a space is, fails the import at that
      line, whatever the later lines hold. */
  lemma SpacedValueAborts(host: Host, path: string, lines: seq<string>, n: nat, k: Keyword, a: string, b: string)
    requires n < |lines| && ParsePrefix(host, path, Tokenize(lines), n).Reading?
    requires EntryOf(k).nrArgs == 1
    requires a != [] && NoSpace(a) && b != [] && NoSpace(b)
    requires lines[n] == Join([Spelling(k), a, b], " ")
    ensures ParseFile(host, path, lines) ==
            Failed(BadValue(path, n + 1, Spelling(k)), ParsePrefix(host, path, Tokenize(lines), n).warnings)
  {
    TokenizeAt(lines, n);
    ClassifyTwoTokens(k, a, b);
    RejectedLineAborts(host, path, Tokenize(lines), n, |lines|);
  }

  /** `ClassifyJoined` for a keyword followed by two tokens. */
  lemma ClassifyTwoTokens(k: Keyword, a: string, b: string)
    requires a != [] && NoSpace(a) && b != [] && NoSpace(b)
    ensures Classify(Join([Spelling(k), a, b], " ")) == Known(k, [a, b])
  {
    assert [Spelling(k), a, b] == [Spelling(k)] + [a, b];
    ClassifyJoined(k, [a, b]);
  }

  /** Every line number in a parse state, one higher. */
  function ShiftLines(st: ParseState): (r: ParseState)
    ensures |r.warnings| == |st.warnings|
    ensures forall i :: 0 <= i < |r.warnings| ==> r.warnings[i].line == st.warnings[i].line + 1
  {
    var ws := seq(|st.warnings|, i requires 0 <= i < |st.warnings| =>
                  st.warnings[i].(line := st.warnings[i].line + 1));
    match st
    case Reading(s, _) => Reading(s, ws)
    case Failed(f, _) => Failed(f.(line := f.line + 1), ws)
  }

  /** A blank or comment line put in front of the file changes nothing but
      the line numbers in the warnings and the failure. */
  lemma {:induction false} LeadingSkipShiftsLines(host: Host, path: string, kinds: seq<LineKind>, n: nat)
    requires n <= |kinds|
    ensures ParsePrefix(host, path, [Skip] + kinds, n + 1) == ShiftLines(ParsePrefix(host, path, kinds, n))
  {
    if n == 0 {
      assert ([Skip] + kinds)[0] == Skip;
    } else {
      LeadingSkipShiftsLines(host, path, kinds, n - 1);
      assert ([Skip] + kinds)[n] == kinds[n - 1];
      assert ParsePrefix(host, path, [Skip] + kinds, n + 1)
          == StepLine(host, path, n + 1, kinds[n - 1], ParsePrefix(host, path, [Skip] + kinds, n));
      StepShiftsLines(host, path, n, kinds[n - 1], ParsePrefix(host, path, kinds, n - 1));
    }
  }

  /** Reading a line one number later from a renumbered state gives the
      renumbered outcome. */
  lemma StepShiftsLines(host: Host, path: string, linenr: nat, line: LineKind, st: ParseState)
    ensures StepLine(host, path, linenr + 1, line, ShiftLines(st)) == ShiftLines(StepLine(host, path, linenr, line, st))
  {
    if st.Reading? && line.Unrecognized? {
      var w := UnrecognizedKeyword(path, linenr, line.keyword);
      assert ShiftLines(st).warnings + [w.(line := linenr + 1)] == ShiftLines(StepLine(host, path, linenr, line, st)).warnings;
    }
  }

  /** The same for whole files: a leading comment line only renumbers. */
  lemma CommentLineShiftsFile(host: Host, path: string, comment: string, lines: seq<string>)
    requires IsBlankOrComment(Strip(comment))
    ensures ParseFile(host, path, [comment] + lines) == ShiftLines(ParseFile(host, path, lines))
  {
    MapEachCons(Classify, comment, lines);
    assert Classify(comment) == Skip;
    assert Tokenize([comment] + lines) == [Skip] + Tokenize(lines);
    assert |[comment] + lines| == |lines| + 1;
    LeadingSkipShiftsLines(host, path, Tokenize(lines), |lines|);
  }
}
