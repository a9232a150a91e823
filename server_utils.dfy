/** Backend utilities (server/utils/index.js): the e-mail check shared with the
    registration validator and the client, and the response envelope. */
module ServerUtils {
  import opened Common
  import opened Text

  /** A character of the class `[^\s@]`. */
  predicate PartChar(c: char)
  {
    !IsSpace(c) && c != '@'
  }

  /** A match of `[^\s@]+`. */
  predicate Part(s: string)
  {
    |s| > 0 && forall k :: 0 <= k < |s| ==> PartChar(s[k])
  }

  /** The language of `/^[^\s@]+@[^\s@]+\.[^\s@]+$/`: an '@' at `i` and a '.' at
      `j` split the string into three nonempty runs of `[^\s@]`. */
  ghost predicate MatchesEmailPattern(s: string)
  {
    exists i, j :: 0 <= i < j < |s| && s[i] == '@' && s[j] == '.'
                   && Part(s[..i]) && Part(s[i + 1..j]) && Part(s[j + 1..])
  }

  /** The domain part has a '.' that is neither its first nor its last character. */
  predicate InnerDot(d: string)
  {
    exists j :: 0 < j < |d| - 1 && d[j] == '.'
  }

  /** `validateEmail`: the pattern test, computed without backtracking. */
  function ValidateEmail(email: string): bool
  {
    var at := IndexOf(email, '@');
    NoSpace(email) && 0 < at < |email| && '@' !in email[at + 1..] && InnerDot(email[at + 1..])
  }

  /** The computed test accepts exactly the strings the regular expression matches. */
  lemma ValidateEmailIsPattern(s: string)
    ensures ValidateEmail(s) <==> MatchesEmailPattern(s)
  {
    if ValidateEmail(s) {
      var at := IndexOf(s, '@');
      var d := s[at + 1..];
      var k :| 0 < k < |d| - 1 && d[k] == '.';
      var j := at + 1 + k;
      assert s[at + 1..j] == d[..k];
      assert s[j + 1..] == d[k + 1..];
      assert forall x :: 0 <= x < |d| ==> d[x] != '@';
      assert Part(s[..at]);
      assert Part(s[at + 1..j]);
      assert Part(s[j + 1..]);
    }
    if MatchesEmailPattern(s) {
      var i, j :| 0 <= i < j < |s| && s[i] == '@' && s[j] == '.'
                  && Part(s[..i]) && Part(s[i + 1..j]) && Part(s[j + 1..]);
      PatternPieces(s, i, j);
    }
  }

  lemma PatternPieces(s: string, i: nat, j: nat)
    requires i < j < |s| && s[i] == '@' && s[j] == '.'
    requires Part(s[..i]) && Part(s[i + 1..j]) && Part(s[j + 1..])
    ensures ValidateEmail(s)
  {
    assert forall x :: 0 <= x < i ==> s[x] == s[..i][x];
    assert forall x :: i < x < j ==> s[x] == s[i + 1..j][x - i - 1];
    assert forall x :: j < x < |s| ==> s[x] == s[j + 1..][x - j - 1];
    assert '@' !in s[..i];
    var at := IndexOf(s, '@');
    assert at == i;
    var d := s[i + 1..];
    assert d[j - i - 1] == '.';
    assert forall x :: 0 <= x < |d| ==> d[x] == s[i + 1 + x];
  }

  /** What an accepted string looks like: no white space, exactly one '@', a
      nonempty local part before it, and a '.' inside the domain after it. */
  lemma ValidateEmailShape(s: string)
    requires ValidateEmail(s)
    ensures NoSpace(s)
    ensures multiset(s)['@'] == 1
    ensures exists at :: 0 < at < |s| && s[at] == '@' && InnerDot(s[at + 1..])
  {
    var at := IndexOf(s, '@');
    SingleAt(s, at);
  }

  lemma SingleAt(s: string, at: nat)
    requires at < |s| && s[at] == '@' && '@' !in s[..at] && '@' !in s[at + 1..]
    ensures multiset(s)['@'] == 1
  {
    var a, d := s[..at], s[at + 1..];
    assert s == a + ['@'] + d;
    assert multiset(s) == multiset(a) + multiset(['@']) + multiset(d);
  }

  /** A string containing white space is never accepted. */
  lemma SpaceRejected(s: string, k: nat)
    requires k < |s| && IsSpace(s[k])
    ensures !ValidateEmail(s)
  {
  }

  /** The envelope built by `sendResponse`; the clock reading is a parameter. */
  datatype Envelope<T> = Envelope(status: string, message: string, data: Option<T>, timestamp: string)

  function SendResponse<T>(status: string, message: string, timestamp: string, data: Option<T> := None): (r: Envelope<T>)
    ensures r.status == status && r.message == message
    ensures r.data == data && r.timestamp == timestamp
  {
    Envelope(status, message, data, timestamp)
  }
}
