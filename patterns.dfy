/** The regular expressions that the browser form and the database schema
    both apply, hand-coded as predicates over ASCII strings. */
module Patterns {
  import opened Ascii

  /** `/^\d{n}$/`: exactly `n` ASCII digits. */
  predicate DigitsN(s: string, n: nat) { |s| == n && AllDigits(s) }

  /** State "just read a letter" of `/^[A-Za-z]+(?: [A-Za-z]+)*$/`: the rest
      is empty, or a letter, or one space followed by a letter. */
  predicate AfterLetter(s: string)
    decreases |s|
  {
    s == []
    || (IsLetter(s[0]) && AfterLetter(s[1..]))
    || (|s| >= 2 && s[0] == ' ' && IsLetter(s[1]) && AfterLetter(s[2..]))
  }

  /** `/^[A-Za-z]+(?: [A-Za-z]+)*$/`: one or more runs of ASCII letters,
      separated by exactly one space. */
  predicate LetterRuns(s: string) {
    |s| > 0 && IsLetter(s[0]) && AfterLetter(s[1..])
  }

  predicate LettersAndSpaces(s: string) {
    forall i :: 0 <= i < |s| ==> IsLetter(s[i]) || s[i] == ' '
  }

  predicate NoDoubleSpace(s: string) {
    forall i :: 0 <= i < |s| - 1 ==> !(s[i] == ' ' && s[i + 1] == ' ')
  }

  /** The plain-words reading of a contact-person name: letters only,
      single spaces as separators, no leading or trailing space. */
  predicate SingleSpacedWords(s: string) {
    |s| > 0 && IsLetter(s[0]) && IsLetter(s[|s| - 1])
    && LettersAndSpaces(s) && NoDoubleSpace(s)
  }

  lemma {:induction false} AfterLetterIff(s: string)
    ensures AfterLetter(s) <==>
      (s == [] || IsLetter(s[|s| - 1])) && LettersAndSpaces(s) && NoDoubleSpace(s)
    decreases |s|
  {
    if s == [] {
    } else if IsLetter(s[0]) {
      var t := s[1..];
      AfterLetterIff(t);
      assert forall i :: 0 <= i < |t| ==> t[i] == s[i + 1];
      if |s| == 1 {
        assert LettersAndSpaces(s) && NoDoubleSpace(s);
      } else {
        assert s[|s| - 1] == t[|t| - 1];
        assert LettersAndSpaces(s) <==> LettersAndSpaces(t) by {
          if LettersAndSpaces(t) {
            forall i | 0 <= i < |s| ensures IsLetter(s[i]) || s[i] == ' ' {
              if i > 0 { assert s[i] == t[i - 1]; }
            }
          }
        }
        assert NoDoubleSpace(s) <==> NoDoubleSpace(t) by {
          if NoDoubleSpace(t) {
            forall i | 0 <= i < |s| - 1 ensures !(s[i] == ' ' && s[i + 1] == ' ') {
              if i > 0 { assert s[i] == t[i - 1] && s[i + 1] == t[i]; }
            }
          }
        }
      }
    } else if s[0] == ' ' {
      if |s| >= 2 && IsLetter(s[1]) {
        var t := s[2..];
        AfterLetterIff(t);
        assert forall i :: 0 <= i < |t| ==> t[i] == s[i + 2];
        if |s| == 2 {
          assert LettersAndSpaces(s) && NoDoubleSpace(s);
        } else {
          assert s[|s| - 1] == t[|t| - 1];
          assert LettersAndSpaces(s) <==> LettersAndSpaces(t) by {
            if LettersAndSpaces(t) {
              forall i | 0 <= i < |s| ensures IsLetter(s[i]) || s[i] == ' ' {
                if i > 1 { assert s[i] == t[i - 2]; }
              }
            }
          }
          assert NoDoubleSpace(s) <==> NoDoubleSpace(t) by {
            if NoDoubleSpace(t) {
              forall i | 0 <= i < |s| - 1 ensures !(s[i] == ' ' && s[i + 1] == ' ') {
                if i > 1 { assert s[i] == t[i - 2] && s[i + 1] == t[i - 1]; }
              }
            }
          }
        }
      } else if |s| >= 2 {
        assert !AfterLetter(s);
        assert !(IsLetter(s[1]) || s[1] == ' ') || (s[0] == ' ' && s[1] == ' ');
      } else {
        assert !AfterLetter(s);
        assert !IsLetter(s[|s| - 1]);
      }
    } else {
      assert !AfterLetter(s);
      assert !(IsLetter(s[0]) || s[0] == ' ');
    }
  }

  /** The name pattern accepts exactly the letter runs separated by single
      spaces, with no space at either end. */
  lemma LetterRunsIff(s: string)
    ensures LetterRuns(s) <==> SingleSpacedWords(s)
  {
    if |s| > 0 && IsLetter(s[0]) {
      var t := s[1..];
      AfterLetterIff(t);
      assert forall i :: 0 <= i < |t| ==> t[i] == s[i + 1];
      if |s| > 1 {
        assert s[|s| - 1] == t[|t| - 1];
        assert LettersAndSpaces(s) <==> LettersAndSpaces(t) by {
          if LettersAndSpaces(t) {
            forall i | 0 <= i < |s| ensures IsLetter(s[i]) || s[i] == ' ' {
              if i > 0 { assert s[i] == t[i - 1]; }
            }
          }
        }
        assert NoDoubleSpace(s) <==> NoDoubleSpace(t) by {
          if NoDoubleSpace(t) {
            forall i | 0 <= i < |s| - 1 ensures !(s[i] == ' ' && s[i + 1] == ' ') {
              if i > 0 { assert s[i] == t[i - 1] && s[i + 1] == t[i]; }
            }
          }
        }
      }
    }
  }

  /** A name the pattern accepts is its own trimmed form. */
  lemma LetterRunsTrimmed(s: string)
    requires LetterRuns(s)
    ensures Trim(s) == s
  {
    LetterRunsIff(s);
    assert !IsSpace(s[0]) && !IsSpace(s[|s| - 1]);
    assert TrimStart(s) == s;
    assert TrimEnd(s) == s;
  }
}
