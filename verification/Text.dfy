/** The string functions that request normalisation is built from. */
module Text {
  /** White space as `unicode.IsSpace` has it. */
  predicate IsSpace(c: char) {
    || '\U{0009}' <= c <= '\U{000D}' || c == ' ' || c == '\U{0085}' || c == '\U{00A0}'
    || c == '\U{1680}' || '\U{2000}' <= c <= '\U{200A}'
    || c == '\U{2028}' || c == '\U{2029}' || c == '\U{202F}' || c == '\U{205F}' || c == '\U{3000}'
  }

  predicate IsDigit(c: char) { '0' <= c <= '9' }

  predicate IsAlphanumeric(c: char) { 'a' <= c <= 'z' || IsDigit(c) }

  /**
   * Lower case, for the characters whose lower-case form is ASCII: the ASCII
   * capitals, the dotted capital I and the Kelvin sign. The other characters
   * stand for themselves; neither they nor their lower-case forms are ASCII.
   */
  function LowerChar(c: char): char {
    if 'A' <= c <= 'Z' then c + 32 as char
    else if c == '\U{0130}' then 'i'
    else if c == '\U{212A}' then 'k'
    else c
  }

  function Lower(s: string): string {
    seq(|s|, i requires 0 <= i < |s| => LowerChar(s[i]))
  }

  function TrimLeft(s: string): string {
    if s != "" && IsSpace(s[0]) then TrimLeft(s[1..]) else s
  }

  function TrimRight(s: string): string {
    if s != "" && IsSpace(s[|s| - 1]) then TrimRight(s[..|s| - 1]) else s
  }

  function TrimSpace(s: string): string {
    TrimRight(TrimLeft(s))
  }

  function TrimSuffix(s: string, c: char): string {
    if s != "" && s[|s| - 1] == c then s[..|s| - 1] else s
  }

  function TrimPrefix(s: string, c: char): string {
    if s != "" && s[0] == c then s[1..] else s
  }

  function Split(s: string, separator: char): (r: seq<string>)
    ensures r != []
  {
    if s == "" then [""]
    else
      var rest := Split(s[1..], separator);
      if s[0] == separator then [""] + rest else [[s[0]] + rest[0]] + rest[1..]
  }

  /** The leading characters that are not white space. */
  function Word(s: string): (w: string)
    ensures w <= s && |w| <= |s| && forall c :: c in w ==> !IsSpace(c)
    ensures |w| == |s| || IsSpace(s[|w|])
  {
    if s == "" || IsSpace(s[0]) then "" else [s[0]] + Word(s[1..])
  }

  predicate IsWord(w: string) {
    w != "" && forall c :: c in w ==> !IsSpace(c)
  }

  function Fields(s: string): (ws: seq<string>)
    ensures forall w :: w in ws ==> IsWord(w)
    decreases |s|
  {
    if s == "" then []
    else if IsSpace(s[0]) then Fields(s[1..])
    else [Word(s)] + Fields(s[|Word(s)|..])
  }

  function Join(ws: seq<string>): string {
    if ws == [] then "" else if |ws| == 1 then ws[0] else ws[0] + " " + Join(ws[1..])
  }

  /** Every run of white space becomes one blank, and none is left at the ends. */
  function Squeeze(s: string): string {
    Join(Fields(s))
  }

  // ------------------------------------------------------------------
  // Their laws
  // ------------------------------------------------------------------

  lemma {:induction false} LowerKeepsSpace(s: string)
    ensures TrimLeft(Lower(s)) == Lower(TrimLeft(s))
  {
    if s != "" && IsSpace(s[0]) {
      assert Lower(s)[1..] == Lower(s[1..]);
      LowerKeepsSpace(s[1..]);
    }
  }

  lemma {:induction false} LowerKeepsTrailing(s: string)
    ensures TrimRight(Lower(s)) == Lower(TrimRight(s))
  {
    if s != "" && IsSpace(s[|s| - 1]) {
      assert Lower(s)[..|s| - 1] == Lower(s[..|s| - 1]);
      LowerKeepsTrailing(s[..|s| - 1]);
    }
  }

  lemma LowerThenTrim(s: string)
    ensures TrimSpace(Lower(s)) == Lower(TrimSpace(s))
  {
    LowerKeepsSpace(s);
    LowerKeepsTrailing(TrimLeft(s));
  }

  lemma {:induction false} SplitCharacters(s: string, separator: char, c: char)
    requires c in s && c != separator
    ensures exists part :: part in Split(s, separator) && c in part
  {
    var rest := Split(s[1..], separator);
    if s[0] == c {
      var first := Split(s, separator)[0];
      assert first == [c] + rest[0] && c in first;
    } else {
      SplitCharacters(s[1..], separator, c);
      var part :| part in rest && c in part;
      var k :| 0 <= k < |rest| && rest[k] == part;
      if s[0] == separator {
        assert Split(s, separator)[k + 1] == part;
      } else if k > 0 {
        assert Split(s, separator)[k] == part;
      } else {
        assert c in Split(s, separator)[0];
      }
    }
  }

  lemma {:induction false} SplitLast(s: string, separator: char)
    requires s != "" && s[|s| - 1] == separator
    ensures var parts := Split(s, separator); |parts| >= 2 && parts[|parts| - 1] == "" && "" in parts
  {
    var rest := Split(s[1..], separator);
    if |s| > 1 {
      SplitLast(s[1..], separator);
      assert rest[|rest| - 1] == "";
    } else {
      assert rest == [""];
    }
    var parts := Split(s, separator);
    assert |parts| >= 2 && parts[|parts| - 1] == rest[|rest| - 1];
  }

  lemma {:induction false} WordThenSpace(w: string, t: string)
    requires forall c :: c in w ==> !IsSpace(c)
    requires t == "" || IsSpace(t[0])
    ensures Word(w + t) == w
  {
    if w == "" {
      assert w + t == t;
    } else {
      assert (w + t)[1..] == w[1..] + t;
      WordThenSpace(w[1..], t);
    }
  }

  /** Joining words with blanks loses nothing. */
  lemma {:induction false} FieldsOfJoin(ws: seq<string>)
    requires forall w :: w in ws ==> IsWord(w)
    ensures Fields(Join(ws)) == ws
  {
    if ws != [] {
      var w := ws[0];
      var t := if |ws| == 1 then "" else " " + Join(ws[1..]);
      assert IsWord(w) && !IsSpace(w[0]);
      assert Join(ws) == w + t;
      WordThenSpace(w, t);
      assert (w + t)[|w|..] == t;
      FieldsOfJoin(ws[1..]);
      if |ws| > 1 {
        assert t[1..] == Join(ws[1..]);
      }
    }
  }

  /** Squeezing is idempotent: squeezed text has no white space left to squeeze. */
  lemma SqueezeTwice(s: string)
    ensures Squeeze(Squeeze(s)) == Squeeze(s)
  {
    FieldsOfJoin(Fields(s));
  }

  lemma TrimNothing(s: string)
    requires s == "" || (!IsSpace(s[0]) && !IsSpace(s[|s| - 1]))
    ensures TrimSpace(s) == s
  {
  }

  // ------------------------------------------------------------------
  // What they mean
  // ------------------------------------------------------------------

  /** Of the ASCII characters the capitals change, each to its small letter; two others become ASCII. */
  lemma LowerMeans(s: string, i: nat)
    requires i < |s|
    ensures |Lower(s)| == |s|
    ensures Lower(s)[i] as int ==
            if 'A' <= s[i] <= 'Z' then s[i] as int + 32
            else if s[i] as int == 0x130 then 'i' as int
            else if s[i] as int == 0x212A then 'k' as int
            else s[i] as int
  {
  }

  predicate AllSpace(s: string) {
    forall c :: c in s ==> IsSpace(c)
  }

  lemma {:induction false} TrimLeftMeans(s: string) returns (before: string)
    ensures s == before + TrimLeft(s) && AllSpace(before)
    ensures TrimLeft(s) != "" ==> !IsSpace(TrimLeft(s)[0])
  {
    before := "";
    if s != "" && IsSpace(s[0]) {
      var rest := TrimLeftMeans(s[1..]);
      before := [s[0]] + rest;
    }
  }

  lemma {:induction false} TrimRightMeans(s: string) returns (after: string)
    ensures s == TrimRight(s) + after && AllSpace(after)
    ensures TrimRight(s) != "" ==> !IsSpace(TrimRight(s)[|TrimRight(s)| - 1])
  {
    after := "";
    if s != "" && IsSpace(s[|s| - 1]) {
      var rest := TrimRightMeans(s[..|s| - 1]);
      after := rest + [s[|s| - 1]];
    }
  }

  /** Trimming takes white space off both ends, all of it and nothing else. */
  lemma TrimMeans(s: string) returns (before: string, after: string)
    ensures s == before + TrimSpace(s) + after && AllSpace(before) && AllSpace(after)
    ensures TrimSpace(s) != "" ==> !IsSpace(TrimSpace(s)[0]) && !IsSpace(TrimSpace(s)[|TrimSpace(s)| - 1])
  {
    before := TrimLeftMeans(s);
    after := TrimRightMeans(TrimLeft(s));
  }

  function Glue(parts: seq<string>, separator: char): string {
    if parts == [] then "" else if |parts| == 1 then parts[0] else parts[0] + [separator] + Glue(parts[1..], separator)
  }

  /** Splitting cuts at every separator and loses nothing else. */
  lemma {:induction false} SplitGlues(s: string, separator: char)
    ensures Glue(Split(s, separator), separator) == s
    ensures forall k :: 0 <= k < |Split(s, separator)| ==> separator !in Split(s, separator)[k]
  {
    if s != "" {
      SplitGlues(s[1..], separator);
      var rest, parts := Split(s[1..], separator), Split(s, separator);
      if s[0] == separator {
        assert parts[1..] == rest;
      } else if |rest| > 1 {
        assert parts[1..] == rest[1..];
      }
    }
  }

  /** So it is the only way to cut: parts without the separator come back as they were. */
  lemma {:induction false} SplitOfGlue(parts: seq<string>, separator: char)
    requires parts != [] && forall k :: 0 <= k < |parts| ==> separator !in parts[k]
    ensures Split(Glue(parts, separator), separator) == parts
    decreases |parts|, |parts[0]|
  {
    var s, first, rest := Glue(parts, separator), parts[0], parts[1..];
    if first != "" {
      var shorter := [first[1..]] + rest;
      SplitOfGlue(shorter, separator);
      assert shorter[1..] == rest;
      assert s[1..] == Glue(shorter, separator) && s[0] == first[0];
      assert first[0] in first && [first[0]] + first[1..] == first && [first] + rest == parts;
    } else if rest != [] {
      SplitOfGlue(rest, separator);
      assert s[1..] == Glue(rest, separator);
    }
  }

  /** The words with the white space around them. */
  function Woven(gaps: seq<string>, words: seq<string>): string
    requires |gaps| == |words| + 1
  {
    if words == [] then gaps[0] else gaps[0] + words[0] + Woven(gaps[1..], words[1..])
  }

  /** White space of any length around the words, and at least one character of it between two of them. */
  predicate AreGaps(gaps: seq<string>) {
    forall k :: 0 <= k < |gaps| ==> AllSpace(gaps[k]) && (0 < k < |gaps| - 1 ==> gaps[k] != "")
  }

  /** The fields of a text are its runs of characters that are not white space, all of them and in order. */
  lemma {:induction false} FieldsMean(s: string) returns (gaps: seq<string>)
    ensures |gaps| == |Fields(s)| + 1 && AreGaps(gaps) && Woven(gaps, Fields(s)) == s
    ensures s != "" && !IsSpace(s[0]) ==> gaps[0] == ""
    decreases |s|
  {
    hide IsSpace;
    if s == "" {
      gaps := [""];
    } else if IsSpace(s[0]) {
      var rest := FieldsMean(s[1..]);
      gaps := [[s[0]] + rest[0]] + rest[1..];
      assert gaps[1..] == rest[1..];
      assert forall k :: 0 < k < |gaps| ==> gaps[k] == rest[k];
    } else {
      var w := Word(s);
      var rest := FieldsMean(s[|w|..]);
      gaps := [""] + rest;
      assert gaps[1..] == rest && Fields(s)[1..] == Fields(s[|w|..]);
      assert forall k :: 0 < k < |gaps| ==> gaps[k] == rest[k - 1];
      if |w| < |s| && rest[0] == "" {
        FirstGap(rest, Fields(s[|w|..]));
      }
    }
  }

  /** A text that starts with white space starts with a gap. */
  lemma FirstGap(gaps: seq<string>, words: seq<string>)
    requires |gaps| == |words| + 1 && gaps[0] == "" && forall w :: w in words ==> IsWord(w)
    ensures Woven(gaps, words) != "" ==> !IsSpace(Woven(gaps, words)[0])
  {
    if words != [] {
      assert IsWord(words[0]);
    }
  }
}
