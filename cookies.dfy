/**
  Reading the cookie file the transfer engine keeps (Netscape format: one
  cookie per line, seven tab-separated fields, the sixth the name and the
  seventh the value). The client does no more than split lines and fields:
  any line that does not split into exactly seven fields is skipped, and a
  later line with the same name overwrites an earlier one.
 */
module Cookies {
  import opened Wrappers
  import opened Strings
  import opened PhpArrays

  /** The name and value a line contributes, if it has exactly seven fields. */
  function LineCookie(line: string): Option<(string, string)> {
    var fields := Split(line, '\t');
    if |fields| == 7 then Some((fields[5], fields[6])) else None
  }

  predicate Names(line: string, name: string) {
    LineCookie(line).Some? && LineCookie(line).value.0 == name
  }

  /** The table after storing the cookies of `lines` one after the other. */
  function CookiesOfLines(lines: seq<string>): PhpArray
    decreases |lines|
  {
    if lines == [] then []
    else
      var table := CookiesOfLines(lines[..|lines| - 1]);
      match LineCookie(lines[|lines| - 1])
      case None => table
      case Some((name, value)) => Put(table, NormalizeKey(name), value)
  }

  /** The cookie table of a cookie file's text. */
  function CookieTable(text: string): PhpArray {
    CookiesOfLines(Split(text, '\n'))
  }

  /** The loop of `getCookies` over the lines of the file. */
  method ReadCookies(text: string) returns (cookies: PhpArray)
    ensures cookies == CookieTable(text)
  {
    var lines := Split(text, '\n');
    cookies := [];
    var i := 0;
    while i < |lines|
      invariant 0 <= i <= |lines|
      invariant cookies == CookiesOfLines(lines[..i])
    {
      var parts := Split(lines[i], '\t');
      if |parts| == 7 {
        cookies := Put(cookies, NormalizeKey(parts[5]), parts[6]);
      }
      assert lines[..i + 1][..i] == lines[..i];
      i := i + 1;
    }
    assert lines[..|lines|] == lines;
  }

  /** A name is in the table exactly when some seven-field line carries it. */
  lemma {:induction false} CookieNames(lines: seq<string>, name: string)
    ensures Get(CookiesOfLines(lines), NormalizeKey(name)).Some?
        <==> exists i :: 0 <= i < |lines| && Names(lines[i], name)
    decreases |lines|
  {
    if lines != [] {
      var n := |lines| - 1;
      var pre := lines[..n];
      CookieNames(pre, name);
      assert forall i :: 0 <= i < n ==> pre[i] == lines[i];
      match LineCookie(lines[n])
      case None =>
      case Some((other, value)) =>
        var k := NormalizeKey(name);
        var k' := NormalizeKey(other);
        assert k == k' <==> name == other;
        if Get(CookiesOfLines(pre), k).None? && name != other {
          assert !exists i :: 0 <= i < n && Names(lines[i], name);
          assert !Names(lines[n], name);
        }
    }
  }

  /** The value stored under a name is the value of the last line carrying that name. */
  lemma {:induction false} LastLineWins(lines: seq<string>, i: nat, name: string, value: string)
    requires i < |lines| && LineCookie(lines[i]) == Some((name, value))
    requires forall j :: i < j < |lines| ==> !Names(lines[j], name)
    ensures Get(CookiesOfLines(lines), NormalizeKey(name)) == Some(value)
    decreases |lines|
  {
    var n := |lines| - 1;
    var pre := lines[..n];
    if i < n {
      assert pre[i] == lines[i];
      assert forall j :: i < j < |pre| ==> pre[j] == lines[j];
      LastLineWins(pre, i, name, value);
      match LineCookie(lines[n])
      case None =>
      case Some((other, v)) =>
        assert !Names(lines[n], name);
        assert NormalizeKey(other) != NormalizeKey(name) by {
          assert KeyText(NormalizeKey(other)) == other;
        }
    }
  }
}
