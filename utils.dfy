/** The validators and the day-suffix helper of lib/utils.ts, and the string
    trimming the forms rely on. Strings are sequences of Unicode characters,
    so a length counts characters, not UTF-16 code units. */
module Utils {
  import opened Types

  /** JavaScript's remainder: truncating division, so the result takes the
      sign of the dividend (Dafny's own % is never negative). */
  function JsRem(a: int, b: int): (r: int)
    requires b > 0
    ensures a >= 0 ==> 0 <= r < b
    ensures a < 0 ==> -b < r <= 0
  {
    if a >= 0 then a % b else -((-a) % b)
  }

  /** The English ordinal suffix for a day of the month. */
  function GetDaySuffix(day: int): (r: string)
    ensures r == "st" || r == "nd" || r == "rd" || r == "th"
    ensures 3 < day < 21 ==> r == "th"
  {
    if day > 3 && day < 21 then "th"
    else
      var last := JsRem(day, 10);
      if last == 1 then "st"
      else if last == 2 then "nd"
      else if last == 3 then "rd"
      else "th"
  }

  /** Over the days of a month, "st" goes with 1, 21 and 31, "nd" with 2
      and 22, "rd" with 3 and 23, and "th" with every other day. */
  lemma DaySuffixOfMonthDays(day: int)
    requires 1 <= day <= 31
    ensures GetDaySuffix(day) == "st" <==> day == 1 || day == 21 || day == 31
    ensures GetDaySuffix(day) == "nd" <==> day == 2 || day == 22
    ensures GetDaySuffix(day) == "rd" <==> day == 3 || day == 23
    ensures GetDaySuffix(day) == "th" <==> !(day in {1, 2, 3, 21, 22, 23, 31})
  {
    var last := JsRem(day, 10);
    if day > 3 && day < 21 {
    } else if day <= 3 {
      assert last == day;
    } else if day < 30 {
      assert last == day - 20;
    } else {
      assert last == day - 30;
    }
  }

  predicate ValidatePassword(password: string)
  {
    |password| >= 6
  }

  /** The characters JavaScript's \s matches (and that trim() removes):
      white space and line terminators. */
  predicate IsSpace(c: char)
  {
    || c == ' ' || c == '\t' || c == '\n' || c == '\r' || c == '\U{000B}' || c == '\U{000C}'
    || c == '\U{00A0}' || c == '\U{1680}' || ('\U{2000}' <= c <= '\U{200A}')
    || c == '\U{2028}' || c == '\U{2029}' || c == '\U{202F}' || c == '\U{205F}'
    || c == '\U{3000}' || c == '\U{FEFF}'
  }

  /** The position of the first '@', if any. */
  function FirstAt(s: string): (r: Option<nat>)
    ensures r.Some? ==> r.value < |s| && s[r.value] == '@' && forall k :: 0 <= k < r.value ==> s[k] != '@'
    ensures r.None? ==> forall k :: 0 <= k < |s| ==> s[k] != '@'
  {
    if s == [] then None
    else if s[0] == '@' then Some(0)
    else match FirstAt(s[1..])
      case None => None
      case Some(k) => Some(k + 1)
  }

  /** The address check: no white space, a first '@' that is not the first
      character and no other '@' after it, and after it a '.' that is neither
      the character right after the '@' nor the last one. */
  function ValidateEmail(email: string): bool
  {
    match FirstAt(email)
      case None => false
      case Some(at) =>
        && at > 0
        && (forall k :: 0 <= k < |email| ==> !IsSpace(email[k]))
        && (forall k :: at < k < |email| ==> email[k] != '@')
        && (exists k :: at + 1 < k < |email| - 1 && email[k] == '.')
  }

  /** Characters lo to hi - 1 are neither white space nor '@'. */
  predicate Plain(s: string, lo: int, hi: int)
    requires 0 <= lo <= hi <= |s|
  {
    forall k :: lo <= k < hi ==> !IsSpace(s[k]) && s[k] != '@'
  }

  /** The pattern ^[^\s@]+@[^\s@]+\.[^\s@]+$ matched with the '@' at i and
      the separating '.' at j. */
  predicate EmailShape(s: string, i: int, j: int)
  {
    && 0 < i && i + 1 < j && j + 1 < |s|
    && s[i] == '@' && s[j] == '.'
    && Plain(s, 0, i) && Plain(s, i + 1, j) && Plain(s, j + 1, |s|)
  }

  /** The check accepts exactly the strings the pattern matches. */
  lemma ValidateEmailMatchesPattern(email: string)
    ensures ValidateEmail(email) <==> exists i, j :: EmailShape(email, i, j)
  {
    if ValidateEmail(email) {
      var at := FirstAt(email).value;
      var k :| at + 1 < k < |email| - 1 && email[k] == '.';
      assert EmailShape(email, at, k);
    }
    if exists i, j :: EmailShape(email, i, j) {
      var i, j :| EmailShape(email, i, j);
      assert FirstAt(email) == Some(i) by {
        var f := FirstAt(email);
        assert f.Some?;
        assert f.value >= i;
      }
      forall k | 0 <= k < |email| ensures !IsSpace(email[k]) {
        if k != i && k != j {
          assert k < i || i < k < j || j < k;
        }
      }
    }
  }

  /** The string without its leading white space. */
  function TrimStart(s: string): (r: string)
    ensures |r| <= |s| && r == s[|s| - |r|..]
    ensures r == [] || !IsSpace(r[0])
    ensures forall k :: 0 <= k < |s| - |r| ==> IsSpace(s[k])
  {
    if s == [] || !IsSpace(s[0]) then s else TrimStart(s[1..])
  }

  /** The string without its trailing white space. */
  function TrimEnd(s: string): (r: string)
    ensures |r| <= |s| && r == s[..|r|]
    ensures r == [] || !IsSpace(r[|r| - 1])
    ensures forall k :: |r| <= k < |s| ==> IsSpace(s[k])
  {
    if s == [] || !IsSpace(s[|s| - 1]) then s else TrimEnd(s[..|s| - 1])
  }

  /** JavaScript's trim(): white space removed from both ends. */
  function Trim(s: string): string
  {
    TrimEnd(TrimStart(s))
  }

  /** A trimmed string is empty exactly when the string is all white space,
      and otherwise starts and ends with a character that is not. */
  lemma TrimFacts(s: string)
    ensures Trim(s) == [] <==> forall k :: 0 <= k < |s| ==> IsSpace(s[k])
    ensures Trim(s) != [] ==> !IsSpace(Trim(s)[0]) && !IsSpace(Trim(s)[|Trim(s)| - 1])
  {
    var a := TrimStart(s);
    var r := TrimEnd(a);
    if r == [] {
      forall k | 0 <= k < |s| ensures IsSpace(s[k]) {
        if k >= |s| - |a| {
          assert s[k] == a[k - (|s| - |a|)];
        }
      }
    } else {
      assert r[0] == a[0];
      assert !IsSpace(s[|s| - |a|]);
    }
  }
}
