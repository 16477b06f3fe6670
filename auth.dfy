/** `validateName` of js/auth.js: the checks on the trimmed player name, in their fixed order. */
module NameCheck {

  /** ECMAScript WhiteSpace and LineTerminator, the set `trim` strips and `\s` matches. */
  predicate IsSpace(c: char)
  {
    var n := c as int;
    (0x09 <= n <= 0x0D) || n == 0x20 || n == 0xA0 || n == 0x1680 || (0x2000 <= n <= 0x200A)
    || n == 0x2028 || n == 0x2029 || n == 0x202F || n == 0x205F || n == 0x3000 || n == 0xFEFF
  }

  /** The class `[A-Za-z0-9А-Яа-яЁё\s]`. */
  predicate Allowed(c: char)
  {
    ('A' <= c <= 'Z') || ('a' <= c <= 'z') || ('0' <= c <= '9')
    || ('\U{0410}' <= c <= '\U{044F}') || c == '\U{0401}' || c == '\U{0451}'
    || IsSpace(c)
  }

  /** How many whitespace characters open s. */
  function LeadingSpaces(s: string): (n: nat)
    ensures n <= |s|
    ensures forall k :: 0 <= k < n ==> IsSpace(s[k])
    ensures n < |s| ==> !IsSpace(s[n])
  {
    if s == [] || !IsSpace(s[0]) then 0 else 1 + LeadingSpaces(s[1..])
  }

  /** How many whitespace characters close s. */
  function TrailingSpaces(s: string): (n: nat)
    ensures n <= |s|
    ensures forall k :: |s| - n <= k < |s| ==> IsSpace(s[k])
    ensures n < |s| ==> !IsSpace(s[|s| - 1 - n])
  {
    if s == [] || !IsSpace(s[|s| - 1]) then 0 else 1 + TrailingSpaces(s[..|s| - 1])
  }

  /** `String.prototype.trim`. */
  function Trim(s: string): (r: string)
    ensures r != [] ==> !IsSpace(r[0]) && !IsSpace(r[|r| - 1])
    ensures r == [] <==> forall k :: 0 <= k < |s| ==> IsSpace(s[k])
    ensures LeadingSpaces(s) + |r| <= |s| && r == s[LeadingSpaces(s)..LeadingSpaces(s) + |r|]
    ensures forall k :: LeadingSpaces(s) + |r| <= k < |s| ==> IsSpace(s[k])
  {
    var i := LeadingSpaces(s);
    var j := TrailingSpaces(s[i..]);
    TrimmedSlice(s, i, j);
    s[i..|s| - j]
  }

  /** The slice between the leading and the trailing whitespace is what `trim` promises. */
  lemma TrimmedSlice(s: string, i: nat, j: nat)
    requires i == LeadingSpaces(s) && j == TrailingSpaces(s[i..])
    ensures i <= |s| - j
    ensures var r := s[i..|s| - j];
      && (r != [] ==> !IsSpace(r[0]) && !IsSpace(r[|r| - 1]))
      && (r == [] <==> forall k :: 0 <= k < |s| ==> IsSpace(s[k]))
      && forall k :: i + |r| <= k < |s| ==> IsSpace(s[k])
  {
    var t := s[i..];
    assert forall k :: |s| - j <= k < |s| ==> s[k] == t[k - i];
    AllSpacesWhenTrimmedAway(s, i, j);
  }

  lemma AllSpacesWhenTrimmedAway(s: string, i: nat, j: nat)
    requires i <= |s| && j <= |s| - i
    requires forall k :: 0 <= k < i ==> IsSpace(s[k])
    requires forall k :: |s| - j <= k < |s| ==> IsSpace(s[k])
    requires i < |s| ==> !IsSpace(s[i])
    ensures j == |s| - i <==> forall k :: 0 <= k < |s| ==> IsSpace(s[k])
  {
  }

  /** Trimming a trimmed string changes nothing. */
  lemma TrimIdempotent(s: string)
    ensures Trim(Trim(s)) == Trim(s)
  {
    var t := Trim(s);
    assert LeadingSpaces(t) == 0;
    assert TrailingSpaces(t[0..]) == 0 by {
      assert t[0..] == t;
    }
  }

  /** `.length`: characters outside the Basic Multilingual Plane take two UTF-16 code units. */
  function Utf16Length(s: string): (n: nat)
    ensures |s| <= n <= 2 * |s|
  {
    if s == [] then 0 else (if s[0] as int > 0xFFFF then 2 else 1) + Utf16Length(s[1..])
  }

  lemma {:induction false} BmpLength(s: string)
    requires forall k :: 0 <= k < |s| ==> s[k] as int <= 0xFFFF
    ensures Utf16Length(s) == |s|
  {
    if s != [] {
      BmpLength(s[1..]);
    }
  }

  datatype Verdict = Ok | EmptyName | TooShort | TooLong | BadCharacters

  /** The early-return chain, each check on the trimmed value; `Ok` is the empty message. */
  function ValidateName(value: string): (v: Verdict)
    ensures v == Ok ==>
              var t := Trim(value);
              2 <= Utf16Length(t) <= 15 && forall k :: 0 <= k < |t| ==> Allowed(t[k])
  {
    var t := Trim(value);
    if t == [] then EmptyName
    else if Utf16Length(t) < 2 then TooShort
    else if Utf16Length(t) > 15 then TooLong
    else if !(forall k :: 0 <= k < |t| ==> Allowed(t[k])) then BadCharacters
    else Ok
  }

  /** A name passes exactly when its trimmed form has 2 to 15 characters, all of them allowed. */
  lemma ValidateNameOk(value: string)
    ensures ValidateName(value) == Ok
        <==> var t := Trim(value);
             2 <= |t| <= 15 && forall k :: 0 <= k < |t| ==> Allowed(t[k])
  {
    var t := Trim(value);
    if forall k :: 0 <= k < |t| ==> Allowed(t[k]) {
      BmpLength(t);
    }
  }

  /** Only whitespace (or nothing) gives the empty-name error, before any other check. */
  lemma EmptyFirst(value: string)
    ensures ValidateName(value) == EmptyName <==> forall k :: 0 <= k < |value| ==> IsSpace(value[k])
  {
  }

  /** A single visible character always gets the length error, whatever its class. */
  lemma OneCharacterIsTooShort(value: string)
    requires |Trim(value)| == 1 && Trim(value)[0] as int <= 0xFFFF
    ensures ValidateName(value) == TooShort
  {
    BmpLength(Trim(value));
  }

  /** One character outside the BMP counts as two, passes the length checks and fails the class check. */
  lemma AstralCharacterIsBadCharacters(value: string)
    requires |Trim(value)| == 1 && Trim(value)[0] as int > 0xFFFF
    ensures ValidateName(value) == BadCharacters
  {
    var t := Trim(value);
    assert Utf16Length(t) == 2 by {
      assert Utf16Length(t[1..]) == 0;
    }
    assert !Allowed(t[0]);
  }

  /** Surrounding whitespace never changes the verdict. */
  lemma ValidateTrimmed(value: string)
    ensures ValidateName(Trim(value)) == ValidateName(value)
  {
    TrimIdempotent(value);
  }
}
