/** Frontend string helpers (client/src/utils/index.js). */
module ClientUtils {
  import opened Text
  import ServerUtils

  /** The client's `validateEmail` tests the same regular expression as the server's. */
  function ValidateEmail(email: string): (ok: bool)
    ensures ok == ServerUtils.ValidateEmail(email)
  {
    ServerUtils.ValidateEmail(email)
  }

  /** `word[0]` for each piece, where the `undefined` of an empty piece joins as "". */
  function FirstLetters(words: seq<string>): string
  {
    if words == [] then []
    else (if words[0] == [] then [] else [words[0][0]]) + FirstLetters(words[1..])
  }

  /** `getInitials`: split on ' ', take each first character, join, upper-case. */
  function GetInitials(name: string): string
  {
    Upper(FirstLetters(Split(name, ' ')))
  }

  /** An independent reading of the initials: every character that starts a
      word, i.e. is not a space and follows a space or the start of the text. */
  function WordStarts(s: string, afterSpace: bool): string
  {
    if s == [] then []
    else (if afterSpace && s[0] != ' ' then [s[0]] else []) + WordStarts(s[1..], s[0] == ' ')
  }

  /** GetInitials takes exactly the word-start characters, upper-cased; so runs
      of spaces contribute nothing and "" gives "". */
  lemma GetInitialsAreWordStarts(name: string)
    ensures GetInitials(name) == Upper(WordStarts(name, true))
  {
    FirstLettersOfSplit(name);
  }

  lemma {:induction false} FirstLettersOfSplit(s: string)
    ensures FirstLetters(Split(s, ' ')) == WordStarts(s, true)
    decreases |s|
  {
    var i := IndexOf(s, ' ');
    var w := s[..i];
    WordStartsOfWord(w, true);
    if i == |s| {
      assert w == s;
      FirstLettersCons(s, []);
    } else {
      var rest := s[i + 1..];
      assert Split(s, ' ') == [w] + Split(rest, ' ');
      FirstLettersCons(w, Split(rest, ' '));
      FirstLettersOfSplit(rest);
      assert s == w + ([' '] + rest);
      WordStartsAppend(w, [' '] + rest, true);
      WordStartsAfterSpace(rest, LastIsSpace(w, true));
    }
  }

  lemma FirstLettersCons(w: string, ws: seq<string>)
    ensures FirstLetters([w] + ws) == (if w == [] then [] else [w[0]]) + FirstLetters(ws)
  {
    assert ([w] + ws)[1..] == ws;
  }

  lemma WordStartsAfterSpace(s: string, afterSpace: bool)
    ensures WordStarts([' '] + s, afterSpace) == WordStarts(s, true)
  {
    assert ([' '] + s)[1..] == s;
  }

  /** The "previous character was a space" flag after reading `w`. */
  function LastIsSpace(w: string, afterSpace: bool): bool
  {
    if w == [] then afterSpace else w[|w| - 1] == ' '
  }

  lemma {:induction false} WordStartsAppend(a: string, b: string, afterSpace: bool)
    ensures WordStarts(a + b, afterSpace) == WordStarts(a, afterSpace) + WordStarts(b, LastIsSpace(a, afterSpace))
    decreases |a|
  {
    if a != [] {
      assert (a + b)[1..] == a[1..] + b;
      WordStartsAppend(a[1..], b, a[0] == ' ');
      assert a[1..] != [] ==> a[1..][|a[1..]| - 1] == a[|a| - 1];
    } else {
      assert a + b == b;
    }
  }

  /** A piece without spaces starts a word exactly at its first character. */
  lemma {:induction false} WordStartsOfWord(w: string, afterSpace: bool)
    requires ' ' !in w
    ensures WordStarts(w, afterSpace) == if w != [] && afterSpace then [w[0]] else []
    decreases |w|
  {
    if w != [] {
      assert ' ' !in w[1..] by { assert forall k :: 0 <= k < |w[1..]| ==> w[1..][k] == w[k + 1]; }
      WordStartsOfWord(w[1..], false);
    }
  }

  /** `capitalizeFirstLetter`: `str.charAt(0).toUpperCase() + str.slice(1)`. */
  function CapitalizeFirstLetter(s: string): (r: string)
    ensures |r| == |s|
    ensures s != [] ==> r[1..] == s[1..]
    ensures s != [] ==> r[0] == UpperChar(s[0])
  {
    if s == [] then [] else [UpperChar(s[0])] + s[1..]
  }

  /** `text.slice(0, end)`: a negative end counts from the end of the text. */
  function SliceEnd(len: nat, end: int): nat
  {
    if end < 0 then (if len + end < 0 then 0 else len + end)
    else if end > len then len else end
  }

  /** `truncateText(text, length = 50)`. */
  function TruncateText(text: string, length: int := 50): (r: string)
    ensures |text| <= length ==> r == text
    ensures |text| > length >= 0 ==> r == text[..length] + "..." && |r| == length + 3
    ensures length < 0 && |text| + length >= 0 ==> r == text[..|text| + length] + "..."
    ensures |text| + length < 0 ==> r == "..."
  {
    if |text| <= length then text
    else text[..SliceEnd(|text|, length)] + "..."
  }
}
