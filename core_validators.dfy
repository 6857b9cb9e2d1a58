/** `not_me_in_username_validator`: a `RegexValidator` with the pattern `^[Mm][Ee]$`. */
module Validators {

  import opened Wrappers
  import opened Regex

  /** `^[Mm][Ee]$` */
  const MePattern: seq<Item> := [Bol, Class([('M', 'M'), ('m', 'm')]), Class([('E', 'E'), ('e', 'e')]), Eol]

  const NotMeMessage := "Нельзя указывать Me/mE/ME/me в качестве логина"

  /** The four spellings of "me" in any case. */
  predicate IsMe(v: string) {
    v == "me" || v == "Me" || v == "mE" || v == "ME"
  }

  /** The validator as written: no `inverse_match`, so a value is rejected when the
      pattern is NOT found in it. */
  function NotMeInUsernameValidator(value: string): (error: Option<string>)
    ensures error.Some? ==> error.value == NotMeMessage
  {
    Validate(MePattern, NotMeMessage, false, value)
  }

  /** The validator with `inverse_match=True`, which is what its message and the
      field's help text ask for: a value is rejected when the pattern IS found. */
  function NotMeInUsernameValidatorIntended(value: string): (error: Option<string>)
    ensures error.Some? ==> error.value == NotMeMessage
  {
    Validate(MePattern, NotMeMessage, true, value)
  }

  /** The pattern is found exactly in a spelling of "me", optionally followed by one newline
      (Python's `$` also matches before a final newline). */
  lemma MePatternFound(v: string)
    ensures Search(MePattern, v) <==> IsMe(v) || (|v| == 3 && IsMe(v[..2]) && v[2] == '\n')
  {
    AnchoredSearch(MePattern, v);
    var p := MePattern;
    assert p[1..] == [p[1], p[2], p[3]];
    assert p[2..] == [p[2], p[3]];
    assert p[3..] == [p[3]];
    assert p[4..] == [];
    if |v| >= 2 {
      InTwoLiterals(v[0], 'M', 'm');
      InTwoLiterals(v[1], 'E', 'e');
      if |v| == 3 {
        assert v == v[..2] + [v[2]];
      }
    }
  }

  /** As written, the validator accepts only the values its message forbids. */
  lemma NotMeAcceptsOnlyMe(v: string)
    ensures NotMeInUsernameValidator(v).None? <==> IsMe(v) || (|v| == 3 && IsMe(v[..2]) && v[2] == '\n')
  {
    MePatternFound(v);
  }

  /** Values that merely contain "me", ordinary usernames and the empty string are rejected;
      "me" followed by a newline is accepted. */
  lemma NotMeExamples()
    ensures NotMeInUsernameValidator("me").None? && NotMeInUsernameValidator("ME").None?
    ensures NotMeInUsernameValidator("me\n").None?
    ensures NotMeInUsernameValidator("meme") == Some(NotMeMessage)
    ensures NotMeInUsernameValidator("name") == Some(NotMeMessage)
    ensures NotMeInUsernameValidator("test_username") == Some(NotMeMessage)
    ensures NotMeInUsernameValidator("") == Some(NotMeMessage)
  {
    NotMeAcceptsOnlyMe("me");
    NotMeAcceptsOnlyMe("ME");
    NotMeAcceptsOnlyMe("me\n");
    assert "me\n"[..2] == "me";
    NotMeAcceptsOnlyMe("meme");
    NotMeAcceptsOnlyMe("name");
    NotMeAcceptsOnlyMe("test_username");
    NotMeAcceptsOnlyMe("");
  }

  /** The intended validator rejects exactly the spellings of "me" (with the same trailing-newline
      allowance) and accepts every other value. */
  lemma NotMeIntendedRejectsOnlyMe(v: string)
    ensures NotMeInUsernameValidatorIntended(v).Some? <==> IsMe(v) || (|v| == 3 && IsMe(v[..2]) && v[2] == '\n')
  {
    MePatternFound(v);
  }
}
