/**
 * Values shared by the whole model: an Option type, the chat events a handler
 * receives, and the few Python string operations the handlers rely on
 * (str.strip, str.casefold on the letters that matter, int() on a decimal
 * string, and the `^\d+$` message filter).
 */
module Common {

  datatype Option<T> = None | Some(value: T) {
    /** `dict.get(key, default)` for a key whose presence is this Option. */
    function GetOr(default: T): T {
      if Some? then value else default
    }
  }

  /** An incoming chat event: a text message, or a photo identified by its file id. */
  datatype Message = Text(text: string) | Photo(fileId: string)

  // ---------------------------------------------------------------------------
  // Whitespace and str.strip()

  /** The characters for which Python's str.isspace() holds. */
  predicate IsSpace(c: char) {
    ('\t' <= c <= '\r') || ('\U{1C}' <= c <= '\U{1F}') || c == ' ' || c == '\U{85}' || c == '\U{A0}'
    || c == '\U{1680}' || ('\U{2000}' <= c <= '\U{200A}') || c == '\U{2028}' || c == '\U{2029}'
    || c == '\U{202F}' || c == '\U{205F}' || c == '\U{3000}'
  }

  predicate AllSpaces(s: string) {
    forall k :: 0 <= k < |s| ==> IsSpace(s[k])
  }

  /** str.lstrip(): drops the leading whitespace. */
  function TrimStart(s: string): (r: string)
    ensures |r| <= |s|
    ensures r == [] || !IsSpace(r[0])
  {
    if s != [] && IsSpace(s[0]) then TrimStart(s[1..]) else s
  }

  /** str.rstrip(): drops the trailing whitespace. */
  function TrimEnd(s: string): (r: string)
    ensures |r| <= |s|
    ensures r == [] || !IsSpace(r[|r| - 1])
  {
    if s != [] && IsSpace(s[|s| - 1]) then TrimEnd(s[..|s| - 1]) else s
  }

  /** What str.lstrip() keeps is a suffix of the text, and what it drops is whitespace. */
  lemma {:induction false} TrimStartShape(s: string)
    ensures TrimStart(s) == s[|s| - |TrimStart(s)|..]
    ensures AllSpaces(s[..|s| - |TrimStart(s)|])
  {
    if s != [] && IsSpace(s[0]) {
      var r := TrimStart(s[1..]);
      TrimStartShape(s[1..]);
      assert s[..|s| - |r|] == [s[0]] + s[1..][..|s| - 1 - |r|];
    }
  }

  /** What str.rstrip() keeps is a prefix of the text, and what it drops is whitespace. */
  lemma {:induction false} TrimEndShape(s: string)
    ensures TrimEnd(s) == s[..|TrimEnd(s)|]
    ensures AllSpaces(s[|TrimEnd(s)|..])
  {
    if s != [] && IsSpace(s[|s| - 1]) {
      var r := TrimEnd(s[..|s| - 1]);
      TrimEndShape(s[..|s| - 1]);
      assert s[|r|..] == s[..|s| - 1][|r|..] + [s[|s| - 1]];
    }
  }

  /** The number of whitespace characters str.lstrip() drops. */
  function LeadingSpaces(s: string): (n: nat)
    ensures n <= |s|
  {
    |s| - |TrimStart(s)|
  }

  /** str.strip(): the text between the leading and the trailing whitespace. */
  function Strip(s: string): (r: string)
    ensures |r| <= |s|
    ensures r == [] || (!IsSpace(r[0]) && !IsSpace(r[|r| - 1]))
  {
    var t := TrimStart(s);
    TrimEndShape(t);
    TrimEnd(t)
  }

  /**
   * The stripped text is the slice of the input that follows its leading
   * whitespace, and only whitespace lies on either side of it.
   */
  lemma StripSlice(s: string)
    ensures var n := LeadingSpaces(s); var r := Strip(s);
      && n + |r| <= |s| && r == s[n..n + |r|]
      && AllSpaces(s[..n]) && AllSpaces(s[n + |r|..])
  {
    var t := TrimStart(s);
    var r := TrimEnd(t);
    var n := |s| - |t|;
    assert n == LeadingSpaces(s) && r == Strip(s);
    TrimStartShape(s);
    TrimEndShape(t);
    SuffixSlices(s, n, |r|);
  }

  /** Taking a prefix or a suffix of a suffix is one slice of the whole. */
  lemma SuffixSlices(s: string, n: nat, m: nat)
    requires n + m <= |s|
    ensures s[n..][..m] == s[n..n + m] && s[n..][m..] == s[n + m..]
  {
  }

  /** Stripping undoes any whitespace padding around a text that has none at its ends. */
  lemma {:induction false} StripPadded(left: string, core: string, right: string)
    requires AllSpaces(left) && AllSpaces(right)
    requires core == [] || (!IsSpace(core[0]) && !IsSpace(core[|core| - 1]))
    ensures Strip(left + core + right) == core
  {
    var s := left + core + right;
    if core == [] {
      assert AllSpaces(s);
      TrimStartShape(s);
      assert TrimStart(s) == [];
    } else {
      assert s == left + (core + right);
      TrimStartPadded(left, core + right);
      TrimEndPadded(core, right);
    }
  }

  lemma {:induction false} TrimStartPadded(left: string, rest: string)
    requires AllSpaces(left)
    requires rest == [] || !IsSpace(rest[0])
    ensures TrimStart(left + rest) == rest
  {
    if left != [] {
      assert (left + rest)[1..] == left[1..] + rest;
      TrimStartPadded(left[1..], rest);
    }
  }

  lemma {:induction false} TrimEndPadded(core: string, right: string)
    requires core != [] && !IsSpace(core[|core| - 1])
    requires AllSpaces(right)
    ensures TrimEnd(core + right) == core
  {
    if right == [] {
      assert core + right == core;
    } else {
      var s := core + right;
      assert s[..|s| - 1] == core + right[..|right| - 1];
      TrimEndPadded(core, right[..|right| - 1]);
    }
  }

  /** Stripping twice is stripping once. */
  lemma StripIdempotent(s: string)
    ensures Strip(Strip(s)) == Strip(s)
  {
    var r := Strip(s);
    if r == [] {
      assert TrimStart(r) == [];
    } else {
      StripUnpadded(r);
    }
  }

  // ---------------------------------------------------------------------------
  // str.casefold() on the letters the command words are made of

  /**
   * The case fold of one character for ASCII letters, the basic Cyrillic
   * capitals (U+0400..U+042F) and the Cyrillic Extended-C small letters
   * (U+1C80..U+1C88); every other character is kept.
   */
  function FoldChar(c: char): char {
    if 'A' <= c <= 'Z' || '\U{0410}' <= c <= '\U{042F}' then (c as int + 32) as char
    else if '\U{0400}' <= c <= '\U{040F}' then (c as int + 80) as char
    else if c == '\U{1C80}' then '\U{0432}'
    else if c == '\U{1C81}' then '\U{0434}'
    else if c == '\U{1C82}' then '\U{043E}'
    else if c == '\U{1C83}' then '\U{0441}'
    else if c == '\U{1C84}' || c == '\U{1C85}' then '\U{0442}'
    else if c == '\U{1C86}' then '\U{044A}'
    else if c == '\U{1C87}' then '\U{0463}'
    else if c == '\U{1C88}' then '\U{A64B}'
    else c
  }

  function CaseFold(s: string): (r: string)
    ensures |r| == |s|
    ensures forall k :: 0 <= k < |s| ==> r[k] == FoldChar(s[k])
  {
    if s == [] then [] else [FoldChar(s[0])] + CaseFold(s[1..])
  }

  /** The first whitespace-delimited word of a text that starts with no whitespace. */
  function FirstWord(s: string): (w: string)
    ensures |w| <= |s| && w == s[..|w|]
    ensures forall k :: 0 <= k < |w| ==> !IsSpace(w[k])
    ensures |w| == |s| || IsSpace(s[|w|])
  {
    if s == [] || IsSpace(s[0]) then [] else [s[0]] + FirstWord(s[1..])
  }

  /**
   * The command filter of the chat framework for a command without a bot
   * mention: the first word of `text.split(maxsplit=1)` is "/" + command.
   */
  predicate IsCommand(text: string, command: string) {
    FirstWord(TrimStart(text)) == "/" + command
  }

  /** The command filter also takes the command followed by a space and any arguments. */
  lemma CommandTakesArguments(word: string, rest: string)
    requires word != [] && forall k :: 0 <= k < |word| ==> !IsSpace(word[k])
    ensures IsCommand("/" + word + " " + rest, word)
  {
    var a := "/" + word;
    var s := a + " " + rest;
    assert TrimStart(s) == s;
    assert forall k :: 1 <= k < |a| ==> a[k] == word[k - 1];
    assert s == a + (" " + rest);
    FirstWordOfWord(a, " " + rest);
  }

  /** A one-word text is the command exactly when it is "/" and the command, letter case included. */
  lemma OneWordCommand(t: string, command: string)
    requires t != [] && forall k :: 0 <= k < |t| ==> !IsSpace(t[k])
    ensures IsCommand(t, command) <==> t == "/" + command
  {
    assert TrimStart(t) == t && t + [] == t;
    FirstWordOfWord(t, []);
  }

  /** The first word of a word followed by whitespace or nothing is that word. */
  lemma {:induction false} FirstWordOfWord(word: string, rest: string)
    requires forall k :: 0 <= k < |word| ==> !IsSpace(word[k])
    requires rest == [] || IsSpace(rest[0])
    ensures FirstWord(word + rest) == word
  {
    if word == [] {
      assert word + rest == rest;
    } else {
      assert (word + rest)[1..] == word[1..] + rest;
      FirstWordOfWord(word[1..], rest);
    }
  }

  // ---------------------------------------------------------------------------
  // Decimal digits, int() and the `^\d+$` filter

  predicate IsDigit(c: char) {
    '0' <= c <= '9'
  }

  predicate AllDigits(s: string) {
    forall k :: 0 <= k < |s| ==> IsDigit(s[k])
  }

  function DigitValue(c: char): nat
    requires IsDigit(c)
  {
    c as int - '0' as int
  }

  function DigitChar(d: nat): (c: char)
    requires d < 10
    ensures IsDigit(c) && DigitValue(c) == d
  {
    ('0' as int + d) as char
  }

  /** The value of a string of decimal digits, most significant first. */
  function DigitsValue(s: string): nat
    requires AllDigits(s)
  {
    if s == [] then 0 else DigitsValue(s[..|s| - 1]) * 10 + DigitValue(s[|s| - 1])
  }

  /** `str(n)` for a natural number: the text an index is rendered as. */
  function NatToString(n: nat): (s: string)
    ensures s != [] && AllDigits(s) && DigitsValue(s) == n
    ensures s[0] != '0' || n == 0
    ensures n == 0 ==> s == "0"
  {
    if n < 10 then [DigitChar(n)]
    else
      var t := NatToString(n / 10);
      var s := t + [DigitChar(n % 10)];
      assert s[..|s| - 1] == t;
      s
  }

  /**
   * The digits of a run of digits in which single underscores may separate
   * two digits (`("_"? digit)*`), or None when the text is not such a run.
   */
  function DigitRun(s: string): (r: Option<string>)
    ensures r.Some? ==> AllDigits(r.value) && |r.value| <= |s|
  {
    if s == [] then Some([])
    else if IsDigit(s[0]) then
      match DigitRun(s[1..])
      case Some(d) => Some([s[0]] + d)
      case None => None
    else if |s| >= 2 && s[0] == '_' && IsDigit(s[1]) then
      match DigitRun(s[2..])
      case Some(d) => Some([s[1]] + d)
      case None => None
    else None
  }

  lemma {:induction false} DigitRunOfDigits(s: string)
    requires AllDigits(s)
    ensures DigitRun(s) == Some(s)
  {
    if s != [] {
      DigitRunOfDigits(s[1..]);
      assert [s[0]] + s[1..] == s;
    }
  }

  /** int() on an already stripped text: an optional sign, then digit groups starting with a digit. */
  function ParseStripped(t: string): (r: Option<int>)
    ensures r.Some? ==> t != [] && (IsDigit(t[0]) || t[0] == '-' || t[0] == '+')
    ensures r.Some? && r.value < 0 ==> t[0] == '-'
  {
    var signed := t != [] && (t[0] == '-' || t[0] == '+');
    var body := if signed then t[1..] else t;
    if body == [] || !IsDigit(body[0]) then None
    else
      match DigitRun(body)
      case Some(d) =>
        var v: int := DigitsValue(d);
        Some(if signed && t[0] == '-' then -v else v)
      case None => None
  }

  /**
   * Python's `int(text)` on a decimal string: surrounding whitespace, an
   * optional sign, then digit groups. None stands for the ValueError int()
   * raises on anything else.
   */
  function ParsePyInt(s: string): (r: Option<int>) {
    ParseStripped(Strip(s))
  }

  /** A text with no whitespace at either end is its own strip. */
  lemma StripUnpadded(t: string)
    requires t != [] && !IsSpace(t[0]) && !IsSpace(t[|t| - 1])
    ensures Strip(t) == t
  {
    assert [] + t + [] == t;
    StripPadded([], t, []);
  }

  /** int() reads a run of plain digits as its value. */
  lemma ParseStrippedDigits(d: string)
    requires d != [] && AllDigits(d)
    ensures ParseStripped(d) == Some(DigitsValue(d))
  {
    assert IsDigit(d[0]);
    DigitRunOfDigits(d);
  }

  /** int() reads a minus sign followed by plain digits as the negated value. */
  lemma ParseNegatedDigits(d: string)
    requires d != [] && AllDigits(d)
    ensures ParseStripped(['-'] + d) == Some(-(DigitsValue(d) as int))
  {
    var t := ['-'] + d;
    assert t[0] == '-' && t[1..] == d;
    assert IsDigit(d[0]);
    DigitRunOfDigits(d);
  }

  /** A leading zero does not change the value of a run of digits. */
  lemma {:induction false} DigitsValueLeadingZero(d: string)
    requires AllDigits(d)
    ensures AllDigits(['0'] + d) && DigitsValue(['0'] + d) == DigitsValue(d)
  {
    var t := ['0'] + d;
    if d != [] {
      assert t[..|t| - 1] == ['0'] + d[..|d| - 1];
      DigitsValueLeadingZero(d[..|d| - 1]);
    }
  }

  /** int() reads a run of plain digits, with nothing around it, as its value. */
  lemma DigitsParse(d: string)
    requires d != [] && AllDigits(d)
    ensures ParsePyInt(d) == Some(DigitsValue(d))
  {
    assert IsDigit(d[0]) && IsDigit(d[|d| - 1]);
    StripUnpadded(d);
    ParseStrippedDigits(d);
  }

  /** The text of an index as it is rendered parses back to that index. */
  lemma RenderedIndexParses(n: nat)
    ensures ParsePyInt(NatToString(n)) == Some(n)
  {
    DigitsParse(NatToString(n));
  }

  /** A minus sign in front of a rendered index parses to the negative number. */
  lemma NegatedIndexParses(n: nat)
    ensures ParsePyInt("-" + NatToString(n)) == Some(-(n as int))
  {
    var d := NatToString(n);
    var t := ['-'] + d;
    assert t[|t| - 1] == d[|d| - 1] && IsDigit(d[|d| - 1]);
    StripUnpadded(t);
    ParseNegatedDigits(d);
  }

  /**
   * The message filter `^\d+$` (matched from the start): one or more digits,
   * where `$` also matches just before a final newline.
   */
  predicate MatchesDigitPattern(s: string) {
    || (s != [] && AllDigits(s))
    || (|s| >= 2 && s[|s| - 1] == '\n' && AllDigits(s[..|s| - 1]))
  }

  /** int() raises on a text without a single decimal digit. */
  lemma ParsePyIntNeedsDigit(s: string)
    requires forall k :: 0 <= k < |s| ==> !IsDigit(s[k])
    ensures ParsePyInt(s).None?
  {
    var t := Strip(s);
    var n := LeadingSpaces(s);
    StripSlice(s);
  }

  /**
   * int() also reads digits after a space or after a plus sign, which the
   * `^\d+$` filter refuses: the filter is strictly narrower than int().
   */
  lemma DigitPatternNarrowerThanInt(d: string)
    requires d != [] && AllDigits(d)
    ensures !MatchesDigitPattern(" " + d) && ParsePyInt(" " + d) == Some(DigitsValue(d))
    ensures !MatchesDigitPattern("+" + d) && ParsePyInt("+" + d) == Some(DigitsValue(d))
  {
    PatternNeedsLeadingDigit(" " + d);
    PatternNeedsLeadingDigit("+" + d);
    SpacedDigitsParse(d);
    SignedDigitsParse(d);
  }

  /** The `^\d+$` filter refuses a text whose first character is not a digit. */
  lemma PatternNeedsLeadingDigit(s: string)
    requires |s| >= 2 && !IsDigit(s[0])
    ensures !MatchesDigitPattern(s)
  {
    assert s[..|s| - 1][0] == s[0];
  }

  lemma SpacedDigitsParse(d: string)
    requires d != [] && AllDigits(d)
    ensures ParsePyInt(" " + d) == Some(DigitsValue(d))
  {
    assert IsDigit(d[0]) && IsDigit(d[|d| - 1]);
    assert AllSpaces(" ") && AllSpaces([]);
    assert " " + d == " " + d + [];
    StripPadded(" ", d, []);
    ParseStrippedDigits(d);
  }

  lemma SignedDigitsParse(d: string)
    requires d != [] && AllDigits(d)
    ensures ParsePyInt("+" + d) == Some(DigitsValue(d))
  {
    var signed := "+" + d;
    assert IsDigit(d[0]) && signed[|signed| - 1] == d[|d| - 1] && IsDigit(d[|d| - 1]);
    StripUnpadded(signed);
    assert signed[1..] == d;
    DigitRunOfDigits(d);
  }

  /** Every text the `^\d+$` filter lets through is a non-negative number for int(). */
  lemma DigitPatternParses(s: string)
    requires MatchesDigitPattern(s)
    ensures ParsePyInt(s).Some? && ParsePyInt(s).value >= 0
  {
    if s != [] && AllDigits(s) {
      DigitsParse(s);
    } else {
      var d := s[..|s| - 1];
      assert s == d + ['\n'];
      DigitsBeforeNewline(d);
    }
  }

  /** Digits followed by a newline strip to the digits. */
  lemma DigitsBeforeNewline(d: string)
    requires d != [] && AllDigits(d)
    ensures ParsePyInt(d + ['\n']) == Some(DigitsValue(d))
  {
    assert IsDigit(d[0]) && IsDigit(d[|d| - 1]);
    assert IsSpace('\n');
    assert AllSpaces(['\n']);
    assert [] + d + ['\n'] == d + ['\n'];
    StripPadded([], d, ['\n']);
    ParseStrippedDigits(d);
  }
}
