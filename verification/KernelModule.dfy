/** The unrestricted_guest option in /etc/modprobe.d: the reader over all files, and the writer. */
module KernelModule {
  import opened Text

  const MODULE := "kvm_intel"
  const OPTION := "unrestricted_guest"
  const CONFIG_FILE := "kvm-intel-" + "unrestricted-guest.conf"
  const HEADER := "# 由 kvm_console 管理：控制 " + "Intel KVM " + "unrestricted_guest 兼容性"

  // ---------------------------------------------------------------- words

  function LowerChar(c: char): char {
    if 'A' <= c <= 'Z' then (c as int + 32) as char else c
  }

  function Lower(s: string): string {
    if s == "" then "" else [LowerChar(s[0])] + Lower(s[1..])
  }

  /** parseKernelModuleBool; its words hold no letter that a character beyond ASCII lowers to. */
  function ParseBool(raw: string): Option<bool> {
    var w := Lower(Trim(raw));
    if w == "1" || w == "y" || w == "yes" || w == "true" || w == "on" then Some(true)
    else if w == "0" || w == "n" || w == "no" || w == "false" || w == "off" then Some(false)
    else None
  }

  /** s is the word w, perhaps with some of its letters in capitals. */
  predicate SameLetters(s: string, w: string) {
    |s| == |w| && forall i | 0 <= i < |s| :: s[i] == w[i] || ('A' <= s[i] <= 'Z' && s[i] as int + 32 == w[i] as int)
  }

  lemma {:induction false} LowerIff(s: string, w: string)
    requires forall i | 0 <= i < |w| :: !('A' <= w[i] <= 'Z')
    ensures Lower(s) == w <==> SameLetters(s, w)
  {
    if s != "" && w != "" {
      LowerIff(s[1..], w[1..]);
      assert w == [w[0]] + w[1..];
      LowerCharIff(s[0], w[0]);
      SameLettersStep(s, w);
    }
  }

  lemma {:induction false} LowerCharIff(c: char, d: char)
    requires !('A' <= d <= 'Z')
    ensures LowerChar(c) == d <==> c == d || ('A' <= c <= 'Z' && c as int + 32 == d as int)
  {
  }

  lemma {:induction false} SameLettersStep(s: string, w: string)
    requires s != "" && w != ""
    ensures SameLetters(s, w) <==>
            (s[0] == w[0] || ('A' <= s[0] <= 'Z' && s[0] as int + 32 == w[0] as int)) && SameLetters(s[1..], w[1..])
  {
    if SameLetters(s[1..], w[1..]) {
      assert forall i | 0 < i < |s| :: s[i] == s[1..][i - 1] && w[i] == w[1..][i - 1];
    }
  }

  const YES_WORDS: seq<string> := ["1", "y", "yes", "true", "on"]
  const NO_WORDS: seq<string> := ["0", "n", "no", "false", "off"]

  lemma {:induction false} WordsAreSmall()
    ensures forall w, i | (w in YES_WORDS || w in NO_WORDS) && 0 <= i < |w| :: !('A' <= w[i] <= 'Z')
  {
    forall w, i | (w in YES_WORDS || w in NO_WORDS) && 0 <= i < |w| ensures !('A' <= w[i] <= 'Z') {
      WordIsSmall(w);
    }
  }

  lemma {:induction false} WordIsSmall(w: string)
    requires w in YES_WORDS || w in NO_WORDS
    ensures forall i | 0 <= i < |w| :: !('A' <= w[i] <= 'Z')
  {
  }

  /** A text says yes or no if, blanks around it aside, it is one of five words each, in any capitals. */
  lemma {:induction false} ParseBoolIff(raw: string)
    ensures ParseBool(raw) == Some(true) <==> exists w | w in YES_WORDS :: SameLetters(Trim(raw), w)
    ensures ParseBool(raw) == Some(false) <==> exists w | w in NO_WORDS :: SameLetters(Trim(raw), w)
  {
    var low := Lower(Trim(raw));
    WordsAreSmall();
    forall w | w in YES_WORDS || w in NO_WORDS ensures low == w <==> SameLetters(Trim(raw), w) {
      LowerIff(Trim(raw), w);
    }
    ByWord(raw, low);
  }

  lemma {:induction false} ByWord(raw: string, low: string)
    requires low == Lower(Trim(raw))
    ensures ParseBool(raw) == Some(true) <==> low in YES_WORDS
    ensures ParseBool(raw) == Some(false) <==> low in NO_WORDS
  {
  }

  predicate NoSpace(s: string) {
    forall c | c in s :: !IsSpace(c)
  }

  function WordLength(s: string): (n: nat)
    ensures n <= |s| && (n == 0 ==> s == "" || IsSpace(s[0]))
  {
    if s == "" || IsSpace(s[0]) then 0 else 1 + WordLength(s[1..])
  }

  /** strings.Fields. */
  function Fields(s: string): seq<string>
    decreases |s|
  {
    if s == "" then []
    else if IsSpace(s[0]) then Fields(s[1..])
    else [s[..WordLength(s)]] + Fields(s[WordLength(s)..])
  }

  function CutComment(line: string): string {
    if Find(line, '#') >= 0 then line[..Find(line, '#')] else line
  }

  // ---------------------------------------------------------------- the assignments in a directory

  /** A file of the directory; one that cannot be read has no content. */
  datatype File = File(name: string, content: Option<string>)

  /** What holds after `before` if `later` may say otherwise. */
  function Override(before: Option<bool>, later: Option<bool>): Option<bool> {
    if later.Some? then later else before
  }

  /** The last value among the first n items. */
  function LastSome<T>(f: T -> Option<bool>, s: seq<T>, n: nat): Option<bool>
    requires n <= |s|
  {
    if n == 0 then None else Override(LastSome(f, s, n - 1), f(s[n - 1]))
  }

  /** The value that one word of an options line assigns, if it is a valid assignment. */
  function Assigned(field: string): Option<bool> {
    var i := Find(field, '=');
    if i < 0 || field[..i] != OPTION then None else ParseBool(field[i + 1..])
  }

  predicate IsOptionsLine(fields: seq<string>) {
    |fields| >= 3 && fields[0] == "options" && fields[1] == MODULE
  }

  /** The words of a line that can assign something. */
  function Words(line: string): seq<string> {
    var fields := Fields(CutComment(line));
    if IsOptionsLine(fields) then fields[2..] else []
  }

  function LinesOf(f: File): seq<string> {
    if f.content.None? then [] else Lines(f.content.value)
  }

  function FromLine(line: string): Option<bool> {
    LastSome(Assigned, Words(line), |Words(line)|)
  }

  function FromFile(f: File): Option<bool> {
    LastSome(FromLine, LinesOf(f), |LinesOf(f)|)
  }

  /** The setting of a directory: the last of its files that says something has the last word. */
  function Setting(files: seq<File>): Option<bool> {
    LastSome(FromFile, files, |files|)
  }

  /** What LastSome finds is there, and nothing after it speaks; it finds nothing only if nothing speaks. */
  lemma {:induction false} LastSomeIsLast<T>(f: T -> Option<bool>, s: seq<T>, n: nat)
    requires n <= |s|
    ensures LastSome(f, s, n).None? <==> forall i | 0 <= i < n :: f(s[i]).None?
    ensures LastSome(f, s, n).Some? <==>
            exists i :: 0 <= i < n && f(s[i]) == LastSome(f, s, n) && f(s[i]).Some?
              && forall j | i < j < n :: f(s[j]).None?
  {
    if n > 0 {
      LastSomeIsLast(f, s, n - 1);
    }
  }

  /** The parts of the first n items, one after the other. */
  function Flat<S, T>(parts: S -> seq<T>, s: seq<S>, n: nat): seq<T>
    requires n <= |s|
  {
    if n == 0 then [] else Flat(parts, s, n - 1) + parts(s[n - 1])
  }

  /** All words that can assign something, in the order of files, lines and words. */
  function AllWords(files: seq<File>): seq<string> {
    var lines := Flat(LinesOf, files, |files|);
    Flat(Words, lines, |lines|)
  }

  lemma {:induction false} LastSomeOfSum<T>(f: T -> Option<bool>, a: seq<T>, b: seq<T>, n: nat)
    requires n <= |b|
    ensures LastSome(f, a + b, |a| + n) == Override(LastSome(f, a, |a|), LastSome(f, b, n))
  {
    if n > 0 {
      LastSomeOfSum(f, a, b, n - 1);
    } else {
      LastSomeOfPrefix(f, a, b, |a|);
    }
  }

  lemma {:induction false} LastSomeOfPrefix<T>(f: T -> Option<bool>, a: seq<T>, b: seq<T>, n: nat)
    requires n <= |a|
    ensures LastSome(f, a + b, n) == LastSome(f, a, n)
  {
    if n > 0 {
      LastSomeOfPrefix(f, a, b, n - 1);
    }
  }

  /** Searching the parts of each item, and then the items, is searching all parts. */
  lemma {:induction false} LastSomeOfFlat<S, T>(g: S -> Option<bool>, f: T -> Option<bool>, parts: S -> seq<T>,
                                                s: seq<S>, n: nat)
    requires n <= |s| && forall i | 0 <= i < |s| :: g(s[i]) == LastSome(f, parts(s[i]), |parts(s[i])|)
    ensures LastSome(g, s, n) == LastSome(f, Flat(parts, s, n), |Flat(parts, s, n)|)
  {
    if n > 0 {
      LastSomeOfFlat(g, f, parts, s, n - 1);
      LastSomeOfSum(f, Flat(parts, s, n - 1), parts(s[n - 1]), |parts(s[n - 1])|);
    }
  }

  /** The setting is the last valid assignment over all uncommented lines of all files: some word
      assigns it and no later word assigns anything, and without a setting no word does. */
  lemma {:induction false} SettingIsLastAssignment(files: seq<File>)
    ensures var words := AllWords(files);
            && (Setting(files).None? <==> forall i | 0 <= i < |words| :: Assigned(words[i]).None?)
            && (Setting(files).Some? <==>
                  exists i :: 0 <= i < |words| && Assigned(words[i]) == Setting(files) && Assigned(words[i]).Some?
                    && forall j | i < j < |words| :: Assigned(words[j]).None?)
  {
    var lines, words := Flat(LinesOf, files, |files|), AllWords(files);
    LastSomeOfFlat(FromFile, FromLine, LinesOf, files, |files|);
    LastSomeOfFlat(FromLine, Assigned, Words, lines, |lines|);
    LastSomeIsLast(Assigned, words, |words|);
  }

  predicate Ascending(files: seq<File>) {
    forall i, j | 0 <= i < j < |files| :: Less(files[i].name, files[j].name)
  }

  function Printed(enabled: bool): string {
    HEADER + "\n" + OptionsLine(enabled) + "\n"
  }

  function OptionsLine(enabled: bool): string {
    "options" + " " + (MODULE + " " + OptionWord(enabled))
  }

  function OptionWord(enabled: bool): string {
    OPTION + "=" + if enabled then "1" else "0"
  }

  /** The directory with one file written: in its place if it is there, else in the order of names. */
  function Put(files: seq<File>, f: File): seq<File> {
    if files == [] || Less(f.name, files[0].name) then [f] + files
    else if files[0].name == f.name then [f] + files[1..]
    else [files[0]] + Put(files[1..], f)
  }

  /** The files that come after a name. */
  function Later(files: seq<File>, name: string): seq<File> {
    if files == [] then []
    else if Less(name, files[0].name) then [files[0]] + Later(files[1..], name)
    else Later(files[1..], name)
  }

  class ModprobeDir {
    /** The *.conf files in the order of filepath.Glob. */
    var files: seq<File>

    constructor (files: seq<File>)
      ensures this.files == files
    {
      this.files := files;
    }

    /** The words of one options line. */
    static method ReadFields(fields: seq<string>, before: Option<bool>) returns (found: Option<bool>)
      ensures found == Override(before, LastSome(Assigned, fields, |fields|))
    {
      found := before;
      for k := 0 to |fields|
        invariant found == Override(before, LastSome(Assigned, fields, k))
      {
        var eq := Find(fields[k], '=');
        if eq >= 0 && fields[k][..eq] == OPTION {
          var parsed := ParseBool(fields[k][eq + 1..]);
          if parsed.Some? {
            found := parsed;
          }
        }
      }
    }

    static method ReadLine(raw: string, before: Option<bool>) returns (found: Option<bool>)
      ensures found == Override(before, FromLine(raw))
    {
      var line := raw;
      var idx := Find(line, '#');
      if idx >= 0 {
        line := line[..idx];
      }
      var fields := Fields(line);
      if |fields| < 3 || fields[0] != "options" || fields[1] != MODULE {
        return before;
      }
      found := ReadFields(fields[2..], before);
    }

    /** The lines of one file. */
    static method ReadLines(lines: seq<string>, before: Option<bool>) returns (found: Option<bool>)
      ensures found == Override(before, LastSome(FromLine, lines, |lines|))
    {
      found := before;
      for j := 0 to |lines|
        invariant found == Override(before, LastSome(FromLine, lines, j))
      {
        found := ReadLine(lines[j], found);
      }
    }

    /** parseKVMIntelPersistentUnrestrictedGuest. */
    method Read() returns (found: Option<bool>, configured: bool)
      ensures found == Setting(files) && (configured <==> found.Some?)
    {
      found := None;
      for i := 0 to |files|
        invariant found == LastSome(FromFile, files, i)
      {
        if files[i].content.Some? {
          found := ReadLines(Lines(files[i].content.value), found);
        }
      }
      configured := found.Some?;
    }

    /** writeKVMIntelUnrestrictedGuestConfig. */
    method Write(enabled: bool)
      requires Ascending(files)
      modifies `files
      ensures files == Put(old(files), File(CONFIG_FILE, Some(Printed(enabled)))) && Ascending(files)
    {
      var f := File(CONFIG_FILE, Some(Printed(enabled)));
      PutAscends(files, f);
      var i := 0;
      while i < |files| && Less(files[i].name, f.name)
        invariant 0 <= i <= |files| && files == old(files)
        invariant forall j | 0 <= j < i :: Less(files[j].name, f.name)
      {
        i := i + 1;
      }
      PutSkips(files, f, i);
      PutHere(files[i..], f);
      var rest := files[i..];
      if rest != [] && rest[0].name == f.name {
        rest := rest[1..];
      }
      files := files[..i] + [f] + rest;
    }
  }

  /** Names before f's are passed over. */
  lemma {:induction false} PutSkips(files: seq<File>, f: File, i: nat)
    requires i <= |files| && forall j | 0 <= j < i :: Less(files[j].name, f.name)
    ensures Put(files, f) == files[..i] + Put(files[i..], f)
  {
    if i == 0 {
      assert files[..0] == [] && files[0..] == files;
    } else {
      TakeOneMore(files, i - 1, Put(files[i..], f));
      PutSkips(files, f, i - 1);
      PutSkipsOne(files[i - 1..], f);
    }
  }

  lemma {:induction false} TakeOneMore(files: seq<File>, i: nat, rest: seq<File>)
    requires i < |files|
    ensures files[..i] + ([files[i]] + rest) == files[..i + 1] + rest
    ensures files[i..][0] == files[i] && files[i..][1..] == files[i + 1..]
  {
  }

  lemma {:induction false} PutSkipsOne(files: seq<File>, f: File)
    requires files != [] && Less(files[0].name, f.name)
    ensures Put(files, f) == [files[0]] + Put(files[1..], f)
  {
    LessAsymmetric(files[0].name, f.name);
    LessIrreflexive(f.name);
  }

  lemma {:induction false} PutHere(files: seq<File>, f: File)
    requires files != [] ==> !Less(files[0].name, f.name)
    ensures Put(files, f) == [f] + if files != [] && files[0].name == f.name then files[1..] else files
  {
    if files != [] {
      LessTotal(files[0].name, f.name);
      LessIrreflexive(f.name);
    }
  }

  lemma {:induction false} LessAsymmetric(a: string, b: string)
    requires Less(a, b)
    ensures !Less(b, a)
  {
    if Less(b, a) {
      LessTransitive(a, b, a);
      LessIrreflexive(a);
    }
  }

  lemma {:induction false} PutAscends(files: seq<File>, f: File)
    requires Ascending(files)
    ensures Ascending(Put(files, f))
    ensures forall g | g in Put(files, f) :: g == f || g in files
  {
    if files == [] {
    } else if Less(f.name, files[0].name) {
      forall j | 0 < j < |files| ensures Less(f.name, files[j].name) {
        LessTransitive(f.name, files[0].name, files[j].name);
      }
    } else if files[0].name != f.name {
      LessTotal(f.name, files[0].name);
      PutAscends(files[1..], f);
      forall g | g in Put(files[1..], f) ensures Less(files[0].name, g.name) {
        if g != f {
          var j :| 0 <= j < |files[1..]| && files[1..][j] == g;
          assert files[j + 1] == g;
        }
      }
    }
  }

  /** A write replaces the file of that name, if there is one, and keeps all others. */
  lemma {:induction false} PutKeepsOthers(files: seq<File>, f: File, g: File)
    requires Ascending(files)
    ensures g in Put(files, f) <==> g == f || (g in files && g.name != f.name)
  {
    if files != [] {
      assert files == [files[0]] + files[1..];
      if Less(f.name, files[0].name) || files[0].name == f.name {
        NamesBehindDiffer(files, f.name);
      } else {
        PutKeepsOthers(files[1..], f, g);
      }
    }
  }

  lemma {:induction false} NamesBehindDiffer(files: seq<File>, name: string)
    requires Ascending(files) && files != [] && (Less(name, files[0].name) || files[0].name == name)
    ensures forall i | 0 < i < |files| :: files[i].name != name
    ensures Less(name, files[0].name) ==> files[0].name != name
  {
    LessIrreflexive(name);
    forall i | 0 < i < |files| ensures files[i].name != name {
      assert Less(files[0].name, files[i].name);
      if Less(name, files[0].name) { LessAsymmetric(name, files[0].name); }
    }
  }

  // ---------------------------------------------------------------- reading what was written

  lemma {:induction false} WordThenBlank(w: string, c: char, rest: string)
    requires w != "" && NoSpace(w) && IsSpace(c)
    ensures Fields(w + [c] + rest) == [w] + Fields(rest)
  {
    var s := w + [c] + rest;
    WordLengthOf(w, s);
    assert s[..|w|] == w && s[|w|..] == [c] + rest && ([c] + rest)[1..] == rest;
  }

  /** Any blanks in front of a word are passed over. */
  lemma {:induction false} BlanksThenWords(a: string, s: string)
    requires AllSpace(a)
    ensures Fields(a + s) == Fields(s)
  {
    if a == "" {
      assert a + s == s;
    } else {
      assert (a + s)[1..] == a[1..] + s;
      BlanksThenWords(a[1..], s);
    }
  }

  lemma {:induction false} WordLengthOf(w: string, s: string)
    requires NoSpace(w) && w <= s && (|w| < |s| ==> IsSpace(s[|w|]))
    ensures WordLength(s) == |w|
  {
    if w != "" {
      assert s[0] == w[0] && w[0] in w;
      WordLengthOf(w[1..], s[1..]);
    }
  }

  lemma {:induction false} OneWord(w: string)
    requires w != "" && NoSpace(w)
    ensures Fields(w) == [w]
  {
    WordLengthOf(w, w);
    assert w[..|w|] == w && w[|w|..] == "";
  }

  /** A word assigns something exactly if it is the option, '=' and a text that says yes or no. */
  lemma {:induction false} WordAssigns(k: string, v: string)
    requires '=' !in k
    ensures Assigned(k + "=" + v) == if k == OPTION then ParseBool(v) else None
    ensures Assigned(k) == None
  {
    var word := k + "=" + v;
    assert word == k + ['='] + v;
    FindFirst(k, '=', v);
    assert word[..|k|] == k && word[|k| + 1..] == v;
  }

  /** A line counts by its first two words: they must be `options` and the module. */
  lemma {:induction false} LineByWords(x: string, m: string, rest: string)
    requires x != "" && m != "" && NoSpace(x) && NoSpace(m) && '#' !in x && '#' !in m && '#' !in rest
    ensures FromLine(x + " " + (m + " " + rest)) ==
            if x == "options" && m == "kvm_intel" then LastSome(Assigned, Fields(rest), |Fields(rest)|) else None
  {
    var line := x + " " + (m + " " + rest);
    FieldsOfTwo(x, m, rest);
    assert CutComment(line) == line;
    assert ([x] + ([m] + Fields(rest)))[2..] == Fields(rest);
  }

  lemma {:induction false} FieldsOfTwo(x: string, m: string, rest: string)
    requires x != "" && m != "" && NoSpace(x) && NoSpace(m)
    ensures Fields(x + " " + (m + " " + rest)) == [x] + ([m] + Fields(rest))
  {
    assert m + " " + rest == m + [' '] + rest;
    WordThenBlank(m, ' ', rest);
    assert x + " " + (m + " " + rest) == x + [' '] + (m + " " + rest);
    WordThenBlank(x, ' ', m + " " + rest);
  }

  /** What stands behind a comment sign does not count. */
  lemma {:induction false} CommentsDoNotCount(line: string, comment: string)
    requires '#' !in line
    ensures FromLine(line + "#" + comment) == FromLine(line)
  {
    assert line + "#" + comment == line + ['#'] + comment;
    FindFirst(line, '#', comment);
    assert (line + "#" + comment)[..|line|] == line;
  }

  lemma {:induction false} HeaderSaysNothing()
    ensures Words(HEADER) == []
  {
  }

  lemma {:induction false} OptionsLineFields(value: string)
    requires NoSpace(value)
    ensures Fields("options" + " " + (MODULE + " " + (OPTION + "=" + value)))
            == ["options", MODULE, OPTION + "=" + value]
  {
    HeadWords();
    OneWord(OPTION + "=" + value);
    FieldsOfTwo("options", MODULE, OPTION + "=" + value);
  }

  lemma {:induction false} HeadWords()
    ensures NoSpace("options") && NoSpace(MODULE) && NoSpace(OPTION)
  {
  }

  lemma {:induction false} OptionAssigns(enabled: bool)
    ensures Assigned(OptionWord(enabled)) == Some(enabled)
  {
    var v := if enabled then "1" else "0";
    var word := OPTION + "=" + v;
    assert word == OPTION + ['='] + v && '=' !in OPTION;
    FindFirst(OPTION, '=', v);
    assert word[..|OPTION|] == OPTION && word[|OPTION| + 1..] == v;
    assert Trimmed(v);
    TrimFixes(v);
    assert Lower(v) == v by { assert v[1..] == ""; }
  }

  lemma {:induction false} PlainLineAssigns(line: string, word: string)
    requires '#' !in line && Fields(line) == ["options", MODULE, word]
    ensures Words(line) == [word] && FromLine(line) == Assigned(word)
  {
    var fields := Fields(line);
    assert CutComment(line) == line && fields[2..] == [word];
    assert LastSome(Assigned, [word], 1) == Override(LastSome(Assigned, [word], 0), Assigned(word));
  }

  lemma {:induction false} OptionsLineLacks(enabled: bool, c: char)
    requires c == '#' || c == '\n'
    ensures c !in OptionsLine(enabled)
  {
  }

  lemma {:induction false} OptionsLineAssigns(enabled: bool)
    ensures Words(OptionsLine(enabled)) == [OptionWord(enabled)] && FromLine(OptionsLine(enabled)) == Some(enabled)
  {
    var v := if enabled then "1" else "0";
    OptionsLineLacks(enabled, '#');
    OptionsLineFields(v);
    OptionAssigns(enabled);
    PlainLineAssigns(OptionsLine(enabled), OptionWord(enabled));
  }

  lemma {:induction false} ThreeItems<T>(f: T -> Option<bool>, s: seq<T>)
    requires |s| == 3
    ensures LastSome(f, s, 3) == Override(Override(f(s[0]), f(s[1])), f(s[2]))
  {
    assert LastSome(f, s, 1) == Override(LastSome(f, s, 0), f(s[0])) == f(s[0]);
    assert LastSome(f, s, 2) == Override(LastSome(f, s, 1), f(s[1]));
  }

  lemma {:induction false} TwoLinesOf(a: string, b: string)
    requires '\n' !in a && '\n' !in b
    ensures Lines(a + "\n" + b + "\n") == [a, b, ""]
  {
    LineSumsAgree(a, b);
    LinesOfFirst(a, b + "\n" + "");
    LinesOfFirst(b, "");
    LinesOfNothing();
  }

  /** A file counts line by line, with or without a newline at its end; one that cannot be read says
      nothing. */
  lemma {:induction false} FileByLines(name: string, lines: seq<string>)
    requires SingleLines(lines) && lines != []
    ensures FromFile(File(name, Some(Join(lines)))) == LastSome(FromLine, lines, |lines|)
    ensures FromFile(File(name, None)) == None
  {
    LinesOfJoined(lines);
  }

  lemma {:induction false} LineSumsAgree(a: string, b: string)
    ensures a + "\n" + b + "\n" == a + "\n" + (b + "\n" + "")
  {
  }

  lemma {:induction false} LinesOfNothing()
    ensures Lines("") == [""]
  {
  }

  lemma {:induction false} NothingAssignsNothing()
    ensures Words("") == []
  {
  }

  lemma {:induction false} ThreeParts<S, T>(parts: S -> seq<T>, s: seq<S>)
    requires |s| == 3
    ensures Flat(parts, s, 3) == parts(s[0]) + parts(s[1]) + parts(s[2])
  {
    assert Flat(parts, s, 1) == Flat(parts, s, 0) + parts(s[0]) == parts(s[0]);
    assert Flat(parts, s, 2) == Flat(parts, s, 1) + parts(s[1]);
  }

  lemma {:induction false} WordsOfOneFile(f: File)
    ensures AllWords([f]) == Flat(Words, LinesOf(f), |LinesOf(f)|)
  {
    assert Flat(LinesOf, [f], 1) == Flat(LinesOf, [f], 0) + LinesOf(f) == LinesOf(f);
  }

  lemma {:induction false} HeaderIsOneLine()
    ensures '\n' !in HEADER
  {
  }

  /** The printed file has one word that can assign anything, and that assigns the value. */
  lemma {:induction false} PrintedAssigns(enabled: bool, name: string)
    ensures var f := File(name, Some(Printed(enabled)));
            AllWords([f]) == [OptionWord(enabled)] && FromFile(f) == Assigned(OptionWord(enabled)) == Some(enabled)
  {
    HeaderSaysNothing();
    HeaderIsOneLine();
    PrintedAfter(HEADER, enabled, name);
    OptionAssigns(enabled);
  }

  lemma {:induction false} PrintedAfter(header: string, enabled: bool, name: string)
    requires '\n' !in header && Words(header) == []
    ensures var f := File(name, Some(header + "\n" + OptionsLine(enabled) + "\n"));
            AllWords([f]) == [OptionWord(enabled)] && FromFile(f) == Some(enabled)
  {
    var f, options := File(name, Some(header + "\n" + OptionsLine(enabled) + "\n")), OptionsLine(enabled);
    OptionsLineAssigns(enabled);
    OptionsLineLacks(enabled, '\n');
    TwoLinesOf(header, options);
    assert LinesOf(f) == [header, options, ""];
    NothingAssignsNothing();
    WordsOfOneFile(f);
    ThreeParts(Words, [header, options, ""]);
    ThreeItems(FromLine, [header, options, ""]);
  }

  lemma {:induction false} LastSomeOfCons<T>(f: T -> Option<bool>, x: T, s: seq<T>, n: nat)
    requires n <= |s|
    ensures LastSome(f, [x] + s, n + 1) == Override(f(x), LastSome(f, s, n))
  {
    if n > 0 {
      LastSomeOfCons(f, x, s, n - 1);
    }
  }

  lemma {:induction false} SettingStep(f: File, files: seq<File>)
    ensures Setting([f] + files) == Override(FromFile(f), Setting(files))
  {
    LastSomeOfCons(FromFile, f, files, |files|);
  }

  lemma {:induction false} AllLater(files: seq<File>, name: string)
    requires forall f | f in files :: Less(name, f.name)
    ensures Later(files, name) == files
  {
    if files != [] {
      AllLater(files[1..], name);
      assert files == [files[0]] + files[1..];
    }
  }

  /** After a write the setting is the value written, unless a file later in the order sets it too. */
  lemma {:induction false} ReadAfterWrite(files: seq<File>, enabled: bool)
    requires Ascending(files)
    ensures Setting(Put(files, File(CONFIG_FILE, Some(Printed(enabled))))) ==
            Override(Some(enabled), Setting(Later(files, CONFIG_FILE)))
  {
    PrintedAssigns(enabled, CONFIG_FILE);
    ReadAfterPut(files, File(CONFIG_FILE, Some(Printed(enabled))));
  }

  lemma {:induction false} ReadAfterPut(files: seq<File>, f: File)
    requires Ascending(files) && FromFile(f).Some?
    ensures Setting(Put(files, f)) ==
            Override(FromFile(f), Setting(Later(files, f.name)))
  {
    if files == [] {
      SettingStep(f, []);
    } else if Less(f.name, files[0].name) {
      forall g | g in files ensures Less(f.name, g.name) {
        if g != files[0] {
          LessTransitive(f.name, files[0].name, g.name);
        }
      }
      AllLater(files, f.name);
      SettingStep(f, files);
    } else if files[0].name == f.name {
      forall g | g in files[1..] ensures Less(f.name, g.name) {
      }
      AllLater(files[1..], f.name);
      SettingStep(f, files[1..]);
    } else {
      ReadAfterPut(files[1..], f);
      SettingStep(files[0], Put(files[1..], f));
    }
  }
}
