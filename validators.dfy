// The RegexValidator patterns shared by the user model and the two
// registration forms: `^\d{2}-\d{4}-\d{3}$` for student and staff IDs,
// `^\+63 \d{3} \d{3} \d{4}$` for phone numbers. `\d` is read as an ASCII
// digit.

module Validators {

  predicate IsDigit(c: char) {
    '0' <= c <= '9'
  }

  predicate AllDigits(s: string) {
    forall i :: 0 <= i < |s| ==> IsDigit(s[i])
  }

  /** One element of an anchored pattern: a literal character, or `\d{n}`. */
  datatype Piece = Lit(c: char) | Digits(n: nat)

  /** The length of every string an anchored pattern accepts. */
  function Width(p: seq<Piece>): nat {
    if p == [] then 0
    else (match p[0] case Lit(_) => 1 case Digits(n) => n) + Width(p[1..])
  }

  /** Anchored match (`^...$`) of a whole string against a pattern. */
  predicate Matches(p: seq<Piece>, s: string)
    decreases |p|
  {
    if p == [] then s == []
    else match p[0]
      case Lit(c) => |s| >= 1 && s[0] == c && Matches(p[1..], s[1..])
      case Digits(n) => |s| >= n && AllDigits(s[..n]) && Matches(p[1..], s[n..])
  }

  /** Every accepted string has exactly the pattern's width. */
  lemma {:induction false} MatchesWidth(p: seq<Piece>, s: string)
    requires Matches(p, s)
    ensures |s| == Width(p)
    decreases |p|
  {
    if p != [] {
      match p[0]
      case Lit(_) => MatchesWidth(p[1..], s[1..]);
      case Digits(n) => MatchesWidth(p[1..], s[n..]);
    }
  }

  /** The domain every registering e-mail must end in, checked by both the forms and the register view. */
  const CitSuffix := "@cit.edu"

  /** `^\d{2}-\d{4}-\d{3}$` */
  const StudentIdPattern: seq<Piece> := [Digits(2), Lit('-'), Digits(4), Lit('-'), Digits(3)]

  /** `^\d{2}-\d{4}-\d{3}$`, written out separately in the source for the staff ID. */
  const StaffIdPattern: seq<Piece> := [Digits(2), Lit('-'), Digits(4), Lit('-'), Digits(3)]

  /** `^\+63 \d{3} \d{3} \d{4}$` */
  const PhonePattern: seq<Piece> :=
    [Lit('+'), Lit('6'), Lit('3'), Lit(' '), Digits(3), Lit(' '), Digits(3), Lit(' '), Digits(4)]

  predicate ValidStudentId(s: string) {
    Matches(StudentIdPattern, s)
  }

  predicate ValidStaffId(s: string) {
    Matches(StaffIdPattern, s)
  }

  predicate ValidPhone(s: string) {
    Matches(PhonePattern, s)
  }

  /** The student/staff ID shape, position by position. */
  predicate IdShape(s: string) {
    && |s| == 11
    && s[2] == '-' && s[7] == '-'
    && AllDigits(s[..2]) && AllDigits(s[3..7]) && AllDigits(s[8..])
  }

  /** The phone shape, position by position. */
  predicate PhoneShape(s: string) {
    && |s| == 16
    && s[..4] == "+63 " && s[7] == ' ' && s[11] == ' '
    && AllDigits(s[4..7]) && AllDigits(s[8..11]) && AllDigits(s[12..])
  }

  /** A student ID is accepted iff it is 2 digits, '-', 4 digits, '-', 3 digits. */
  lemma StudentIdIffShape(s: string)
    ensures ValidStudentId(s) <==> IdShape(s)
  {
    var p := StudentIdPattern;
    assert p[1..] == [Lit('-'), Digits(4), Lit('-'), Digits(3)];
    assert p[2..] == [Digits(4), Lit('-'), Digits(3)];
    assert p[3..] == [Lit('-'), Digits(3)];
    assert p[4..] == [Digits(3)];
    assert p[1..][1..] == p[2..] && p[2..][1..] == p[3..] && p[3..][1..] == p[4..] && p[4..][1..] == [];
    if IdShape(s) {
      assert Matches(p[4..], s[8..]) by { assert s[8..][3..] == [] && s[8..][..3] == s[8..]; }
      assert Matches(p[3..], s[7..]) by { assert s[7..][1..] == s[8..]; }
      assert Matches(p[2..], s[3..]) by { assert s[3..][4..] == s[7..] && s[3..][..4] == s[3..7]; }
      assert Matches(p[1..], s[2..]) by { assert s[2..][1..] == s[3..]; }
    }
    if ValidStudentId(s) {
      assert AllDigits(s[..2]) && Matches(p[1..], s[2..]);
      assert s[2] == '-' && Matches(p[2..], s[3..]) by { assert s[2..][1..] == s[3..]; }
      assert AllDigits(s[3..7]) && Matches(p[3..], s[7..]) by {
        assert s[3..][..4] == s[3..7];
        assert s[3..][4..] == s[7..];
      }
      assert s[7] == '-' && Matches(p[4..], s[8..]) by { assert s[7..][1..] == s[8..]; }
      assert s[8..][3..] == [] && |s| == 11;
      assert AllDigits(s[8..]) by { assert s[8..][..3] == s[8..]; }
    }
  }

  /** The phone pattern's suffixes, written out, so that each matching step unfolds one piece. */
  lemma PhoneSuffixes()
    ensures PhonePattern[1..] == [Lit('6'), Lit('3'), Lit(' '), Digits(3), Lit(' '), Digits(3), Lit(' '), Digits(4)]
    ensures PhonePattern[2..] == [Lit('3'), Lit(' '), Digits(3), Lit(' '), Digits(3), Lit(' '), Digits(4)]
    ensures PhonePattern[3..] == [Lit(' '), Digits(3), Lit(' '), Digits(3), Lit(' '), Digits(4)]
    ensures PhonePattern[4..] == [Digits(3), Lit(' '), Digits(3), Lit(' '), Digits(4)]
    ensures PhonePattern[5..] == [Lit(' '), Digits(3), Lit(' '), Digits(4)]
    ensures PhonePattern[6..] == [Digits(3), Lit(' '), Digits(4)]
    ensures PhonePattern[7..] == [Lit(' '), Digits(4)]
    ensures PhonePattern[8..] == [Digits(4)]
  {
  }

  /** Every string of the phone shape is accepted. */
  lemma PhoneShapeMatches(s: string)
    requires PhoneShape(s)
    ensures ValidPhone(s)
  {
    var p := PhonePattern;
    PhoneSuffixes();
    assert s[0] == '+' && s[1] == '6' && s[2] == '3' && s[3] == ' ' by {
      assert s[..4][0] == s[0] && s[..4][1] == s[1] && s[..4][2] == s[2] && s[..4][3] == s[3];
    }
    assert Matches(p[8..], s[12..]) by {
      assert p[8..][1..] == [];
      assert s[12..][..4] == s[12..] && s[12..][4..] == [];
    }
    assert Matches(p[7..], s[11..]) by { assert p[7..][1..] == p[8..] && s[11..][1..] == s[12..]; }
    assert Matches(p[6..], s[8..]) by {
      assert p[6..][1..] == p[7..];
      assert s[8..][..3] == s[8..11] && s[8..][3..] == s[11..];
    }
    assert Matches(p[5..], s[7..]) by { assert p[5..][1..] == p[6..] && s[7..][1..] == s[8..]; }
    assert Matches(p[4..], s[4..]) by {
      assert p[4..][1..] == p[5..];
      assert s[4..][..3] == s[4..7] && s[4..][3..] == s[7..];
    }
    assert Matches(p[3..], s[3..]) by { assert p[3..][1..] == p[4..] && s[3..][1..] == s[4..]; }
    assert Matches(p[2..], s[2..]) by { assert p[2..][1..] == p[3..] && s[2..][1..] == s[3..]; }
    assert Matches(p[1..], s[1..]) by { assert p[1..][1..] == p[2..] && s[1..][1..] == s[2..]; }
  }

  /** Every accepted phone number has the phone shape. */
  lemma PhoneMatchesShape(s: string)
    requires ValidPhone(s)
    ensures PhoneShape(s)
  {
    var p := PhonePattern;
    PhoneSuffixes();
    MatchesWidth(p, s);
    assert |s| == 16 by { assert Width(p) == 16; }
    assert s[0] == '+' && Matches(p[1..], s[1..]);
    assert s[1] == '6' && Matches(p[2..], s[2..]) by { assert p[1..][1..] == p[2..] && s[1..][1..] == s[2..]; }
    assert s[2] == '3' && Matches(p[3..], s[3..]) by { assert p[2..][1..] == p[3..] && s[2..][1..] == s[3..]; }
    assert s[3] == ' ' && Matches(p[4..], s[4..]) by { assert p[3..][1..] == p[4..] && s[3..][1..] == s[4..]; }
    assert AllDigits(s[4..7]) && Matches(p[5..], s[7..]) by {
      assert p[4..][1..] == p[5..];
      assert s[4..][..3] == s[4..7] && s[4..][3..] == s[7..];
    }
    assert s[7] == ' ' && Matches(p[6..], s[8..]) by { assert p[5..][1..] == p[6..] && s[7..][1..] == s[8..]; }
    assert AllDigits(s[8..11]) && Matches(p[7..], s[11..]) by {
      assert p[6..][1..] == p[7..];
      assert s[8..][..3] == s[8..11] && s[8..][3..] == s[11..];
    }
    assert s[11] == ' ' && Matches(p[8..], s[12..]) by { assert p[7..][1..] == p[8..] && s[11..][1..] == s[12..]; }
    assert AllDigits(s[12..]) by { assert s[12..][..4] == s[12..]; }
    assert s[..4] == "+63 ";
  }

  /** A phone number is accepted iff it is '+63 ' then 3, 3 and 4 digits separated by single spaces. */
  lemma PhoneIffShape(s: string)
    ensures ValidPhone(s) <==> PhoneShape(s)
  {
    if PhoneShape(s) {
      PhoneShapeMatches(s);
    }
    if ValidPhone(s) {
      PhoneMatchesShape(s);
    }
  }

  /** The staff-ID and student-ID validators accept exactly the same strings. */
  lemma StaffIdIsStudentIdRule(s: string)
    ensures ValidStaffId(s) <==> ValidStudentId(s)
    ensures StaffIdPattern == StudentIdPattern
  {
  }
}
