/** Leaderboard members "uid:nickname" (internal/store/redis.go, internal/rank/handler.go) and Go's decimal integers. */
module RankMember {
  import opened Common

  // ---------------------------------------------------------------------------------------------------------------
  // strconv.FormatInt and strconv.ParseInt in base 10
  // ---------------------------------------------------------------------------------------------------------------

  function Digit(d: int): char
    requires 0 <= d < 10
  {
    "0123456789"[d]
  }

  function FormatNat(n: nat): string {
    if n < 10 then [Digit(n)] else FormatNat(n / 10) + [Digit(n % 10)]
  }

  function FormatInt(n: int): string {
    if n < 0 then "-" + FormatNat(-n) else FormatNat(n)
  }

  predicate IsDigit(c: char) {
    '0' <= c <= '9'
  }

  /** The value of a non-empty string of digits. */
  function ParseDigits(s: string): Option<nat> {
    if s == "" || !IsDigit(s[|s| - 1]) then None
    else
      var last := s[|s| - 1] as int - '0' as int;
      if |s| == 1 then Some(last)
      else match ParseDigits(s[..|s| - 1])
        case None => None
        case Some(front) => Some(front * 10 + last)
  }

  function ParseInt(s: string): Option<int64> {
    var negative := s != "" && s[0] == '-';
    var digits := if s != "" && (s[0] == '-' || s[0] == '+') then s[1..] else s;
    match ParseDigits(digits)
    case None => None
    case Some(value) =>
      if negative then (if value > -MIN_INT64 then None else Some(0 - value))
      else if value > MAX_INT64 then None else Some(value)
  }

  lemma {:induction false} ParseFormatNat(n: nat)
    ensures ParseDigits(FormatNat(n)) == Some(n)
    ensures |FormatNat(n)| >= 1 && forall i :: 0 <= i < |FormatNat(n)| ==> IsDigit(FormatNat(n)[i])
  {
    if n >= 10 {
      ParseFormatNat(n / 10);
      assert FormatNat(n)[..|FormatNat(n)| - 1] == FormatNat(n / 10);
    }
  }

  lemma ParseInverts(s: string, value: nat)
    requires ParseDigits(s) == Some(value) && s != "" && IsDigit(s[0])
    ensures value <= MAX_INT64 ==> ParseInt(s) == Some(value)
    ensures value <= -MIN_INT64 ==> ParseInt("-" + s) == Some(0 - value)
  {
    assert ("-" + s)[1..] == s;
  }

  lemma {:induction false} DigitsParse(s: string)
    ensures ParseDigits(s).Some? <==> s != "" && forall i :: 0 <= i < |s| ==> IsDigit(s[i])
  {
    if |s| > 1 {
      DigitsParse(s[..|s| - 1]);
      assert forall i :: 0 <= i < |s| ==> i == |s| - 1 || s[i] == s[..|s| - 1][i];
    }
  }

  /** What parses: digits, after at most one sign, whose value fits an int64. */
  lemma ParsedIff(s: string)
    requires s == "" || (s[0] != '-' && s[0] != '+')
    ensures var digits := s != "" && forall i :: 0 <= i < |s| ==> IsDigit(s[i]);
            && ParseInt("+" + s) == ParseInt(s)
            && (digits <==> ParseDigits(s).Some?)
            && (ParseInt(s).Some? <==> digits && ParseDigits(s).value <= 0x7fff_ffff_ffff_ffff)
            && (ParseInt("-" + s).Some? <==> digits && ParseDigits(s).value <= 0x8000_0000_0000_0000)
            && (ParseInt(s).Some? ==> ParseInt(s).value == ParseDigits(s).value)
            && (ParseInt("-" + s).Some? ==> ParseInt("-" + s).value == 0 - ParseDigits(s).value)
  {
    DigitsParse(s);
    assert ("-" + s)[1..] == s && ("+" + s)[1..] == s;
  }

  lemma ParseFormatInt(n: int64)
    ensures ParseInt(FormatInt(n)) == Some(n)
    ensures ':' !in FormatInt(n)
  {
    var magnitude: nat := if n < 0 then 0 - n else n;
    ParseFormatNat(magnitude);
    ParseInverts(FormatNat(magnitude), magnitude);
  }

  // ---------------------------------------------------------------------------------------------------------------
  // Members
  // ---------------------------------------------------------------------------------------------------------------

  /** The member UpdateRank writes. */
  function Member(uid: int64, nickname: string): string {
    FormatInt(uid) + ":" + nickname
  }

  /** What the format looks like, digit by digit and in whole. */
  lemma MemberExamples()
    ensures forall d :: 0 <= d < 10 ==> Digit(d) as int == '0' as int + d
    ensures Member(1024, "a:b") == "1024:a:b" && Member(-7, "") == "-7:" && Member(0, "x") == "0:x"
  {
    assert FormatNat(10) == "10" && FormatNat(102) == "102" && FormatNat(1024) == "1024";
  }

  /** The position of the first colon. */
  function FirstColon(s: string): Option<nat> {
    if s == "" then None
    else if s[0] == ':' then Some(0)
    else match FirstColon(s[1..])
      case None => None
      case Some(i) => Some(i + 1)
  }

  lemma {:induction false} FirstColonAfter(front: string, back: string)
    requires ':' !in front
    ensures FirstColon(front + ":" + back) == Some(|front|)
  {
    if front == "" {
      assert front + ":" + back == ":" + back;
    } else {
      FirstColonAfter(front[1..], back);
      assert (front + ":" + back)[1..] == front[1..] + ":" + back;
    }
  }

  lemma {:induction false} FirstColonIsInside(s: string)
    ensures match FirstColon(s)
            case None => ':' !in s
            case Some(i) => i < |s| && s[i] == ':' && ':' !in s[..i]
  {
    if s != "" && s[0] != ':' {
      FirstColonIsInside(s[1..]);
      match FirstColon(s[1..])
      case None =>
      case Some(i) => assert s[..i + 1] == [s[0]] + s[1..][..i];
    }
  }

  /** parseMember: anything that is not an integer, a colon and a rest counts as a bare nickname of player 0. */
  function ParseMember(member: string): (int64, string) {
    match FirstColon(member)
    case None => (0, member)
    case Some(i) =>
      FirstColonIsInside(member);
      match ParseInt(member[..i])
      case None => (0, member)
      case Some(uid) => (uid, member[i + 1..])
  }

  /** Reading back a written member gives the uid and the nickname, for every uid and every nickname, colons included. */
  lemma ParseInvertsMember(uid: int64, nickname: string)
    ensures ParseMember(Member(uid, nickname)) == (uid, nickname)
  {
    ParseFormatInt(uid);
    FirstColonAfter(FormatInt(uid), nickname);
    var member := Member(uid, nickname);
    assert member[..|FormatInt(uid)|] == FormatInt(uid);
    assert member[|FormatInt(uid)| + 1..] == nickname;
  }

  /** The first colon decides: a front that is an int64 is the uid; without one, all of it is the nickname of player 0. */
  lemma FirstColonDecides(front: string, back: string)
    requires ':' !in front
    ensures ParseMember(front) == (0, front)
    ensures ParseMember(front + ":" + back)
            == if ParseInt(front).Some? then (ParseInt(front).value, back) else (0, front + ":" + back)
  {
    FirstColonIsInside(front);
    FirstColonAfter(front, back);
    assert (front + ":" + back)[..|front|] == front && (front + ":" + back)[|front| + 1..] == back;
  }

  /** Two players, or one player under two nicknames, never share a leaderboard entry. */
  lemma MembersAreDistinct(uid: int64, nickname: string, uid': int64, nickname': string)
    requires Member(uid, nickname) == Member(uid', nickname')
    ensures uid == uid' && nickname == nickname'
  {
    ParseInvertsMember(uid, nickname);
    ParseInvertsMember(uid', nickname');
  }
}
