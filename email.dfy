/** The e-mail check of `_validate_email` (app/models/Users.py and app/models/User.py): the
    regular expression `^[a-zA-Z0-9._%+-]+@[a-zA-Z0-9.-]+\.[a-zA-Z]{2,}$` applied with
    `re.match`, then lower-casing. */
module Email {
  import opened Py
  import opened Text

  /** `[a-zA-Z0-9._%+-]`, the characters of the local part. */
  predicate LocalChar(c: char)
  {
    IsLetter(c) || IsDigit(c) || c == '.' || c == '_' || c == '%' || c == '+' || c == '-'
  }

  /** `[a-zA-Z0-9.-]`, the characters of the domain before the last dot. */
  predicate DomainChar(c: char)
  {
    IsLetter(c) || IsDigit(c) || c == '.' || c == '-'
  }

  /** The pattern with its `@` at `i` and its last dot at `k`: one or more local characters
      before `i`, one or more domain characters between, two or more letters after `k`. */
  predicate ShapeAt(s: string, i: int, k: int)
  {
    0 < i && i + 1 < k && k + 3 <= |s| && s[i] == '@' && s[k] == '.' &&
    (forall j :: 0 <= j < i ==> LocalChar(s[j])) &&
    (forall j :: i < j < k ==> DomainChar(s[j])) &&
    (forall j :: k < j < |s| ==> IsLetter(s[j]))
  }

  /** The pattern between `^` and `$`, as the regular expression reads: some split of `s` at an
      `@` and a later `.` into a local part, a domain and a top-level label. */
  predicate ShapeSpec(s: string)
  {
    exists i, k :: 0 <= i < k < |s| && ShapeAt(s, i, k)
  }

  /** The first position of `ch`, or `|s|` if there is none. */
  function FirstIndex(s: string, ch: char): (r: nat)
    ensures r <= |s|
    ensures r < |s| ==> s[r] == ch
    ensures forall j :: 0 <= j < r ==> s[j] != ch
  {
    if s == [] then 0 else if s[0] == ch then 0 else 1 + FirstIndex(s[1..], ch)
  }

  /** The last position of `ch`, or `-1` if there is none. */
  function LastIndex(s: string, ch: char): (r: int)
    ensures -1 <= r < |s|
    ensures r >= 0 ==> s[r] == ch
    ensures forall j :: r < j < |s| ==> s[j] != ch
  {
    if s == [] then -1 else if s[|s| - 1] == ch then |s| - 1 else LastIndex(s[..|s| - 1], ch)
  }

  /** The pattern checked without search: neither class admits `@` and the top-level label admits
      no dot, so the split must be at the first `@` and at the last dot. */
  predicate Shape(s: string)
  {
    ShapeAt(s, FirstIndex(s, '@'), LastIndex(s, '.'))
  }

  /** The direct check decides the pattern. */
  lemma ShapeDecidesPattern(s: string)
    ensures Shape(s) <==> ShapeSpec(s)
  {
    if ShapeSpec(s) {
      var i, k :| 0 <= i < k < |s| && ShapeAt(s, i, k);
      assert FirstIndex(s, '@') == i;
      assert LastIndex(s, '.') == k;
    }
  }

  /** `re.match(pattern, s)`: Python's `$` matches at the end and also before one final
      newline. */
  predicate Accepts(s: string)
  {
    Shape(s) || (|s| >= 1 && s[|s| - 1] == '\n' && Shape(s[..|s| - 1]))
  }

  /** `_validate_email(email)`: the address lower-cased, or `ValueError`. */
  function Validate(s: string): (r: Result<string>)
    ensures r.Ok? <==> Accepts(s)
    ensures r.Ok? ==> r.value == Lower(s)
    ensures r.Err? ==> r.error == ValueError("Invalid email format")
  {
    if Accepts(s) then Ok(Lower(s)) else Err(ValueError("Invalid email format"))
  }

  // ---------------------------------------------------------------------------------------
  // Idempotence

  lemma LowerCharKeepsClasses(c: char)
    ensures LocalChar(c) ==> LocalChar(LowerChar(c))
    ensures DomainChar(c) ==> DomainChar(LowerChar(c))
    ensures IsLetter(c) ==> IsLetter(LowerChar(c))
    ensures c == '@' || c == '.' || c == '\n' ==> LowerChar(c) == c
  {
  }

  /** Lower-casing keeps the pattern: the split of `s` is a split of `Lower(s)`. */
  lemma LowerKeepsShape(s: string)
    requires Shape(s)
    ensures Shape(Lower(s))
  {
    ShapeDecidesPattern(s);
    var i, k :| 0 <= i < k < |s| && ShapeAt(s, i, k);
    var t := Lower(s);
    forall j | 0 <= j < |s|
      ensures LocalChar(s[j]) ==> LocalChar(t[j])
      ensures DomainChar(s[j]) ==> DomainChar(t[j])
      ensures IsLetter(s[j]) ==> IsLetter(t[j])
      ensures s[j] == '@' || s[j] == '.' ==> t[j] == s[j]
    {
      LowerCharKeepsClasses(s[j]);
    }
    assert ShapeAt(t, i, k);
    ShapeDecidesPattern(t);
  }

  /** Lower-casing keeps an address accepted, with or without its final newline. */
  lemma LowerKeepsAccepts(s: string)
    requires Accepts(s)
    ensures Accepts(Lower(s))
  {
    if Shape(s) {
      LowerKeepsShape(s);
    } else {
      var n := |s| - 1;
      LowerKeepsShape(s[..n]);
      LowerPrefix(s, n);
      LowerCharKeepsClasses(s[n]);
    }
  }

  lemma LowerPrefix(s: string, n: nat)
    requires n <= |s|
    ensures Lower(s)[..n] == Lower(s[..n])
  {
    assert forall j :: 0 <= j < n ==> Lower(s)[..n][j] == Lower(s[..n])[j];
  }

  /** Validation is idempotent: an accepted address, lower-cased, is accepted again and maps to
      itself. */
  lemma ValidateIdempotent(s: string)
    requires Validate(s).Ok?
    ensures Validate(Validate(s).value) == Validate(s)
  {
    LowerIdempotent(s);
    LowerKeepsAccepts(s);
  }

  // ---------------------------------------------------------------------------------------
  // What the pattern rules out

  /** An accepted shape has one `@`, and only pattern characters, and no underscore after it. */
  lemma ShapeCharacters(s: string)
    ensures Shape(s) ==> forall j :: 0 <= j < |s| && j != FirstIndex(s, '@') ==> s[j] != '@'
    ensures Shape(s) ==> forall j :: 0 <= j < |s| ==> LocalChar(s[j]) || s[j] == '@'
    ensures Shape(s) ==> forall j :: FirstIndex(s, '@') < j < |s| ==> s[j] != '_'
  {
    if Shape(s) {
      var i := FirstIndex(s, '@');
      var k := LastIndex(s, '.');
      assert ShapeAt(s, i, k);
      forall j | 0 <= j < |s|
        ensures j != i ==> s[j] != '@'
        ensures LocalChar(s[j]) || s[j] == '@'
        ensures i < j ==> s[j] != '_'
      {
        if j < i {
          assert LocalChar(s[j]);
        } else if i < j < k {
          assert DomainChar(s[j]);
        } else if k < j {
          assert IsLetter(s[j]);
        }
      }
    }
  }

  /** Accepting `s` means its pattern part has the properties of `ShapeCharacters`. */
  lemma AcceptedPart(s: string) returns (t: string)
    ensures Accepts(s) ==> Shape(t)
    ensures |t| <= |s| && t == s[..|t|]
    ensures forall j :: |t| <= j < |s| ==> s[j] == '\n'
  {
    if Shape(s) || !Accepts(s) {
      t := s;
    } else {
      t := s[..|s| - 1];
    }
  }

  /** An address without `@` is rejected. */
  lemma NoAtRejected(s: string)
    requires forall j :: 0 <= j < |s| ==> s[j] != '@'
    ensures !Accepts(s)
  {
    var t := AcceptedPart(s);
    assert forall j :: 0 <= j < |t| ==> t[j] == s[j];
  }

  /** An address with two `@` is rejected. */
  lemma TwoAtsRejected(s: string, p: nat, q: nat)
    requires p < q < |s| && s[p] == '@' && s[q] == '@'
    ensures !Accepts(s)
  {
    var t := AcceptedPart(s);
    ShapeCharacters(t);
    if q < |t| {
      assert t[p] == '@' && t[q] == '@';
    }
  }

  /** A character outside both classes, a quote or a space say, is rejected wherever it is. */
  lemma ForeignCharRejected(s: string, p: nat)
    requires p < |s| && !LocalChar(s[p]) && s[p] != '@' && s[p] != '\n'
    ensures !Accepts(s)
  {
    var t := AcceptedPart(s);
    ShapeCharacters(t);
    if p < |t| {
      assert t[p] == s[p];
    }
  }

  /** An underscore after the `@` is rejected. */
  lemma UnderscoreInDomainRejected(s: string, p: nat, q: nat)
    requires p < q < |s| && s[p] == '@' && s[q] == '_'
    ensures !Accepts(s)
  {
    var t := AcceptedPart(s);
    ShapeCharacters(t);
    if q < |t| {
      assert t[p] == '@' && t[q] == '_';
    }
  }

  // ---------------------------------------------------------------------------------------
  // Addresses from the test suite

  /** A two-letter-or-longer label after a one-letter domain is accepted. */
  lemma ShortDomainAccepted()
    ensures Validate("example@s.example").Ok?
  {
    ShortDomainSplit();
    ShapeDecidesPattern("example@s.example");
  }

  lemma ShortDomainSplit()
    ensures ShapeAt("example@s.example", 7, 9)
  {
  }

  /** An accepted address is returned as it is when it has no capitals. */
  lemma LowerCaseAccepted()
    ensures Validate("x@ab.cd") == Ok("x@ab.cd")
  {
    ShortSplit();
    ShortLower();
    ShapeDecidesPattern("x@ab.cd");
  }

  lemma ShortSplit()
    ensures ShapeAt("x@ab.cd", 1, 4)
  {
  }

  lemma ShortLower()
    ensures Lower("x@ab.cd") == "x@ab.cd"
  {
  }

  /** `$` also matches before a final newline, which lower-casing keeps. */
  lemma TrailingNewlineAccepted()
    ensures Validate("x@ab.cd\n") == Ok("x@ab.cd\n")
  {
    ShortSplit();
    ShapeDecidesPattern("x@ab.cd");
    NewlineSplit();
    NewlineLower();
  }

  lemma NewlineSplit()
    ensures "x@ab.cd\n"[..7] == "x@ab.cd" && "x@ab.cd\n"[7] == '\n'
  {
  }

  lemma NewlineLower()
    ensures Lower("x@ab.cd\n") == "x@ab.cd\n"
  {
  }

  lemma MissingAtRejected()
    ensures Validate("Abc.example.com") == Err(ValueError("Invalid email format"))
  {
    MissingAtSpelling();
    NoAtRejected("Abc.example.com");
  }

  lemma MissingAtSpelling()
    ensures forall j :: 0 <= j < |"Abc.example.com"| ==> "Abc.example.com"[j] != '@'
  {
  }

  lemma SeveralAtsRejected()
    ensures Validate("A@b@c@example.com") == Err(ValueError("Invalid email format"))
  {
    TwoAtsRejected("A@b@c@example.com", 1, 3);
  }

  lemma QuoteRejected()
    ensures Validate("just\"not\"right@example.com") == Err(ValueError("Invalid email format"))
  {
    ForeignCharRejected("just\"not\"right@example.com", 4);
  }

  lemma SpaceRejected()
    ensures Validate("this is\"not\\allowed@example.com") == Err(ValueError("Invalid email format"))
  {
    ForeignCharRejected("this is\"not\\allowed@example.com", 4);
  }

  /** `i_like_underscore@but_its_not_allowed_in_this_part.example.com`, written in three pieces. */
  lemma UnderscoreDomainRejected()
    ensures Validate("i_like_underscore" + "@" + "but_its_not_allowed_in_this_part.example.com") ==
            Err(ValueError("Invalid email format"))
  {
    var a := "i_like_underscore";
    var b := "but_its_not_allowed_in_this_part.example.com";
    UnderscoreDomainSpelling();
    assert (a + "@" + b)[17] == '@';
    assert (a + "@" + b)[21] == b[3];
    UnderscoreInDomainRejected(a + "@" + b, 17, 21);
  }

  lemma UnderscoreDomainSpelling()
    ensures |"i_like_underscore"| == 17 && "but_its_not_allowed_in_this_part.example.com"[3] == '_'
  {
  }
}
