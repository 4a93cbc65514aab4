/**
 The link command a user types to the bot, and the confirmation code it carries.
 */
module LinkCommand {
  import opened Wrappers
  import opened Text

  /** Letters and digits without I, O, 0 and 1. */
  const CODE_ALPHABET: set<char> := {
    'A', 'B', 'C', 'D', 'E', 'F', 'G', 'H', 'J', 'K', 'L', 'M', 'N', 'P', 'Q', 'R', 'S', 'T', 'U', 'V', 'W', 'X', 'Y', 'Z',
    '2', '3', '4', '5', '6', '7', '8', '9'
  }
  const CHAT_PEER_THRESHOLD := 2_000_000_000

  predicate IsChatPeer(peer: int) {
    peer >= CHAT_PEER_THRESHOLD
  }

  predicate InAlphabet(c: char) {
    c in CODE_ALPHABET
  }

  predicate OverAlphabet(code: string) {
    forall i :: 0 <= i < |code| ==> InAlphabet(code[i])
  }

  function NormalizeCode(raw: string): string {
    Upper(Strip(raw))
  }

  /** None: not the command. Some(""): the command without a code. */
  function ParseLinkCommand(text: string, command: string): Option<string> {
    var stripped := Strip(text);
    if stripped == [] then None
    else
      var parts := Split(stripped);
      if parts == [] || Lower(parts[0]) != Lower(command) then None
      else if |parts| < 2 then Some("")
      else Some(parts[1])
  }

  /** Equal but for the case of letters. */
  ghost predicate SameLetters(a: string, b: string) {
    Lower(a) == Lower(b)
  }

  /** A text in which the command, in any case, is the first word and `typed` the second. */
  ghost predicate Carries(text: string, command: string, typed: string) {
    exists pad: string, word: string, sep: string, tail: string ::
      CarriesAs(text, command, typed, pad, word, sep, tail)
  }

  ghost predicate CarriesAs(text: string, command: string, typed: string, pad: string, word: string, sep: string, tail: string) {
    && text == pad + word + sep + typed + tail
    && AllSpace(pad) && AllSpace(sep) && sep != []
    && SameLetters(word, command)
    && typed != [] && NoSpace(typed)
    && (tail == [] || IsSpace(tail[0]))
  }

  /** A usable link command: the parser can match it. */
  predicate Matchable(command: string) {
    command != [] && forall i :: 0 <= i < |command| ==> !IsSpace(command[i])
  }

  lemma SameLettersShape(word: string, command: string)
    requires SameLetters(word, command)
    ensures |word| == |command| && (NoSpace(word) <==> NoSpace(command))
  {
    assert |Lower(word)| == |Lower(command)|;
    forall i | 0 <= i < |word| ensures IsSpace(word[i]) <==> IsSpace(command[i]) {
      assert Lower(word)[i] == Lower(command)[i];
    }
  }

  /** Any casing of the command, any padding, separators and trailing words. */
  lemma CarriedCodeIsParsed(text: string, command: string, typed: string)
    requires Matchable(command) && Carries(text, command, typed)
    ensures ParseLinkCommand(text, command) == Some(typed)
  {
    hide Split, Strip;
    var pad, word, sep, tail :| CarriesAs(text, command, typed, pad, word, sep, tail);
    SameLettersShape(word, command);
    SplitStrip(text);
    assert text == pad + (word + (sep + (typed + tail)));
    SplitPad(pad, word + (sep + (typed + tail)));
    SplitWord(word, sep + (typed + tail));
    SplitPad(sep, typed + tail);
    SplitWord(typed, tail);
  }

  /** And nothing else yields a code: the parser accepts exactly the texts that carry one. */
  lemma ParsedCodeIsCarried(text: string, command: string, typed: string)
    requires ParseLinkCommand(text, command) == Some(typed) && typed != []
    ensures Carries(text, command, typed)
  {
    hide Split, Strip, Lower;
    SplitStrip(text);
    var pad, rest := SplitFirst(text);
    var word := Split(text)[0];
    var sep, tail := SplitFirst(rest);
    assert text == pad + word + sep + typed + tail;
    assert rest[0] == (sep + typed + tail)[0];
    assert CarriesAs(text, command, typed, pad, word, sep, tail);
  }

  /** A link command that is empty or contains a blank is never recognized. */
  lemma UnmatchableCommandNeverParses(text: string, command: string)
    requires !Matchable(command)
    ensures ParseLinkCommand(text, command) == None
  {
    SplitStrip(text);
    if Split(text) != [] {
      var pad, rest := SplitFirst(text);
      if SameLetters(Split(text)[0], command) {
        SameLettersShape(Split(text)[0], command);
      }
    }
  }

  /** The text starts, after blanks, with the command in any case; `rest` is what follows that word. */
  ghost predicate Commands(text: string, command: string, rest: string) {
    exists pad: string, word: string ::
      && text == pad + word + rest && AllSpace(pad)
      && word != [] && NoSpace(word) && SameLetters(word, command)
      && (rest == [] || IsSpace(rest[0]))
  }

  lemma CommandedWords(text: string, command: string, rest: string)
    requires Commands(text, command, rest)
    ensures Split(text) != [] && SameLetters(Split(text)[0], command) && Split(rest) == Split(text)[1..]
  {
    var pad: string, word: string :|
      && text == pad + word + rest && AllSpace(pad)
      && word != [] && NoSpace(word) && SameLetters(word, command)
      && (rest == [] || IsSpace(rest[0]));
    assert text == pad + (word + rest);
    SplitPad(pad, word + rest);
    SplitWord(word, rest);
  }

  /**
   The parser's three answers: none when the first word is not the command, an empty code when
   nothing but blanks follows it, and otherwise exactly the code the text carries.
   */
  lemma ParserAnswers(text: string, command: string, typed: string)
    ensures ParseLinkCommand(text, command).None? <==> forall rest :: !Commands(text, command, rest)
    ensures ParseLinkCommand(text, command) == Some("") <==> exists rest :: Commands(text, command, rest) && AllSpace(rest)
    ensures typed != "" ==>
              (ParseLinkCommand(text, command) == Some(typed) <==> Matchable(command) && Carries(text, command, typed))
  {
    hide Split, Strip, Commands, Carries, Lower;
    SplitStrip(text);
    forall rest | Commands(text, command, rest)
      ensures ParseLinkCommand(text, command).Some?
      ensures AllSpace(rest) <==> ParseLinkCommand(text, command) == Some("")
    {
      CommandedWords(text, command, rest);
      NoWords(rest);
      SecondWord(text);
    }
    if ParseLinkCommand(text, command).Some? {
      var pad, rest := SplitFirst(text);
      CommandsFirst(text, command, pad, rest);
      NoWords(rest);
    }
    if typed != "" && Matchable(command) && Carries(text, command, typed) { CarriedCodeIsParsed(text, command, typed); }
    if typed != "" && ParseLinkCommand(text, command) == Some(typed) {
      ParsedCodeIsCarried(text, command, typed);
      if !Matchable(command) { UnmatchableCommandNeverParses(text, command); }
    }
  }

  lemma CommandsFirst(text: string, command: string, pad: string, rest: string)
    requires Split(text) != [] && text == pad + Split(text)[0] + rest && AllSpace(pad)
    requires Split(text)[0] != [] && NoSpace(Split(text)[0]) && SameLetters(Split(text)[0], command)
    requires rest == [] || IsSpace(rest[0])
    ensures Commands(text, command, rest)
  {
  }

  lemma SecondWord(text: string)
    ensures |Split(text)| > 1 ==> Split(text)[1] != []
  {
    if |Split(text)| > 1 {
      var pad, rest := SplitFirst(text);
      var pad', rest' := SplitFirst(rest);
    }
  }

  /** The alphabet: capital letters but I and O, digits from 2 on. */
  lemma AlphabetExactly(c: char)
    ensures InAlphabet(c) <==> ('A' <= c <= 'Z' && c != 'I' && c != 'O') || '2' <= c <= '9'
  {
  }

  lemma AlphabetIsCanonical(c: char)
    requires InAlphabet(c)
    ensures !IsSpace(c) && UpperChar(c) == c && UpperChar(LowerChar(c)) == c
  {
  }

  /** Codes have no blanks and are in upper case. */
  lemma CodeIsCanonical(code: string)
    requires OverAlphabet(code)
    ensures NoSpace(code) && Upper(Lower(code)) == code
  {
    forall i | 0 <= i < |code| ensures !IsSpace(code[i]) && UpperChar(LowerChar(code[i])) == code[i] {
      AlphabetIsCanonical(code[i]);
    }
  }

  lemma UpperIgnoresCase(typed: string)
    ensures Upper(Lower(typed)) == Upper(typed)
  {
  }

  /** Any casing of a code normalizes back to it. */
  lemma NormalizeRestores(typed: string, code: string)
    requires OverAlphabet(code) && SameLetters(typed, code)
    ensures NormalizeCode(typed) == code
  {
    CodeIsCanonical(code);
    SameLettersShape(typed, code);
    StripOfWord(typed);
    UpperIgnoresCase(typed);
  }

  /** Nothing but the code in some casing, with blanks around it, normalizes to the code. */
  lemma NormalizeExactly(typed: string, code: string)
    requires OverAlphabet(code)
    ensures NormalizeCode(typed) == code <==> exists w :: StripsTo(typed, w) && SameLetters(w, code)
  {
    hide StripsTo, OverAlphabet, Strip;
    CodeIsCanonical(code);
    StripExactly(typed, Strip(typed));
    forall w | StripsTo(typed, w) ensures w == Strip(typed) { StripExactly(typed, w); }
    LowerIgnoresCase(Strip(typed));
    UpperIgnoresCase(Strip(typed));
  }

  lemma LowerIgnoresCase(typed: string)
    ensures Lower(Upper(typed)) == Lower(typed)
  {
  }

  /**
   Round trip of the command: whatever the casing of command and code, the padding, the
   separators and the trailing words, the code comes back exactly.
   */
  lemma CommandRoundTrip(text: string, command: string, typed: string, code: string)
    requires Matchable(command) && code != [] && OverAlphabet(code)
    requires SameLetters(typed, code) && Carries(text, command, typed)
    ensures
      var parsed := ParseLinkCommand(text, command);
      parsed.Some? && parsed.value != "" && NormalizeCode(parsed.value) == code
  {
    CarriedCodeIsParsed(text, command, typed);
    NormalizeRestores(typed, code);
    SameLettersShape(typed, code);
  }
}
