/** The university email gate and the simulated SSO answer
    (`services/auth.py`). Password hashing and token signing are not part
    of this module: the handlers take them as function parameters. */
module AuthService {
  import opened Base
  import opened Text

  /** `settings.ALLOWED_EMAIL_DOMAINS`. */
  const AllowedDomains: seq<string> := ["manchester.ac.uk", "student.manchester.ac.uk"]

  /** The position of the last `@`, or -1 when there is none. */
  function LastAt(s: string): (k: int)
    ensures -1 <= k < |s|
    ensures k >= 0 ==> s[k] == '@'
    ensures forall j :: k < j < |s| ==> s[j] != '@'
  {
    if s == [] then -1
    else if s[|s| - 1] == '@' then |s| - 1
    else LastAt(s[..|s| - 1])
  }

  /** Any position with those three properties is the last `@`. */
  lemma LastAtUnique(s: string, k: int)
    requires -1 <= k < |s|
    requires k >= 0 ==> s[k] == '@'
    requires forall j :: k < j < |s| ==> s[j] != '@'
    ensures LastAt(s) == k
  {
  }

  /** `email.split("@")[-1]`: the text after the last `@`, or the whole
      string when there is none. */
  function AfterLastAt(s: string): (r: string)
    ensures |r| <= |s| && r == s[|s| - |r|..]
    ensures '@' !in r
    ensures '@' in s ==> s[|s| - |r| - 1] == '@'
    ensures '@' !in s ==> r == s
  {
    s[LastAt(s) + 1..]
  }

  /** `validate_email_domain`. */
  predicate ValidateEmailDomain(email: string)
  {
    Lower(AfterLastAt(email)) in AllowedDomains
  }

  /** The part after the last `@` of `local@domain`, for a domain without `@`. */
  lemma AfterLastAtOfAddress(local: string, domain: string)
    requires '@' !in domain
    ensures AfterLastAt(local + "@" + domain) == domain
  {
    var s := local + "@" + domain;
    assert s[|local|] == '@';
    assert forall j :: |local| < j < |s| ==> s[j] == domain[j - |local| - 1];
    LastAtUnique(s, |local|);
    assert s[|local| + 1..] == domain;
  }

  /** The local part does not affect the check. */
  lemma LocalPartIrrelevant(local: string, local': string, domain: string)
    requires '@' !in domain
    ensures ValidateEmailDomain(local + "@" + domain) == ValidateEmailDomain(local' + "@" + domain)
    ensures ValidateEmailDomain(local + "@" + domain) <==> Lower(domain) in AllowedDomains
  {
    AfterLastAtOfAddress(local, domain);
    AfterLastAtOfAddress(local', domain);
  }

  /** Splitting then lowercasing is lowercasing then splitting: `@` is not a
      letter. */
  lemma LowerAfterLastAt(s: string)
    ensures Lower(AfterLastAt(s)) == AfterLastAt(Lower(s))
  {
    LastAtLower(s);
    LowerSuffix(s, LastAt(s) + 1);
  }

  /** Lowercasing leaves every `@` where it was. */
  lemma LastAtLower(s: string)
    ensures LastAt(Lower(s)) == LastAt(s)
  {
    var l := Lower(s);
    forall j | 0 <= j < |s|
      ensures l[j] == '@' <==> s[j] == '@'
    {
      LowerCharAt(s[j]);
    }
    LastAtUnique(l, LastAt(s));
  }

  lemma LowerCharAt(c: char)
    ensures LowerChar(c) == '@' <==> c == '@'
  {
  }

  /** The check ignores case throughout the address. */
  lemma DomainCaseInsensitive(email: string, email': string)
    requires Lower(email) == Lower(email')
    ensures ValidateEmailDomain(email) == ValidateEmailDomain(email')
  {
    LowerAfterLastAt(email);
    LowerAfterLastAt(email');
  }

  /** A string without `@` is checked as a domain in its entirety. */
  lemma NoAtIsWholeDomain(s: string)
    requires '@' !in s
    ensures ValidateEmailDomain(s) <==> Lower(s) in AllowedDomains
  {
  }

  lemma LowerOfLowercase(s: string)
    requires forall i :: 0 <= i < |s| ==> !('A' <= s[i] <= 'Z')
    ensures Lower(s) == s
  {
  }

  /** So the bare domain, with no local part at all, passes. */
  lemma BareDomainPasses()
    ensures ValidateEmailDomain("manchester.ac.uk")
  {
    var d := "manchester.ac.uk";
    assert forall i :: 0 <= i < |d| ==> d[i] != '@' && !('A' <= d[i] <= 'Z');
    LowerOfLowercase(d);
    assert AfterLastAt(d) == d;
    assert AllowedDomains[0] == d;
  }

  // ---------------------------------------------------------------------
  // Simulated SSO

  const Faculties: seq<string> := ["Science and Engineering", "Humanities", "Biology, Medicine and Health"]

  const Courses: seq<string> := [
    "Computer Science", "Mathematics", "Physics", "English Literature", "Psychology",
    "Medicine", "Law", "Economics", "Electrical Engineering", "Chemistry"
  ]

  /** The dict `simulate_sso` returns. */
  datatype SsoData = SsoData(email: string, studentId: string, course: string, year: int, faculty: string)

  /** One of `'0123456789'`. */
  function DigitChar(n: nat): (c: char)
    ensures '0' <= c <= '9'
  {
    ('0' as int + n % 10) as char
  }

  /** `''.join(random.choices('0123456789', k=7))`, from the first seven draws. */
  function StudentId(draws: seq<nat>): (r: string)
    requires |draws| >= 7
    ensures |r| == 7 && forall i :: 0 <= i < 7 ==> '0' <= r[i] <= '9'
  {
    var r := seq(7, i requires 0 <= i < 7 => DigitChar(draws[i]));
    assert forall i :: 0 <= i < 7 ==> r[i] == DigitChar(draws[i]);
    r
  }

  lemma ModBelow(n: nat, m: nat)
    requires n < m
    ensures n % m == n
  {
  }

  /** `random.choice(xs)` for a draw `n`. */
  function Pick<T>(xs: seq<T>, n: nat): (r: T)
    requires xs != []
    ensures r in xs
    ensures n < |xs| ==> r == xs[n]
  {
    xs[n % |xs|]
  }

  /** The dict `simulate_sso` builds once the domain has passed. `draws`
      are the random numbers the `random` module hands out, ten per call:
      the first seven pick the student id digits, then the course, the year
      and the faculty, each scaled to its range. */
  function SsoAnswer(email: string, draws: seq<nat>): (r: SsoData)
    requires |draws| >= 10
    ensures r.email == email
    ensures 1 <= r.year <= 4
    ensures |r.studentId| == 7 && forall i :: 0 <= i < 7 ==> '0' <= r.studentId[i] <= '9'
    ensures r.course in Courses && r.faculty in Faculties
  {
    SsoData(email, StudentId(draws), Pick(Courses, draws[7]), 1 + draws[8] % 4, Pick(Faculties, draws[9]))
  }

  /** `simulate_sso`: nothing for a disallowed domain. */
  function SimulateSso(email: string, draws: seq<nat>): (r: Option<SsoData>)
    requires |draws| >= 10
    ensures r.None? <==> !ValidateEmailDomain(email)
    ensures r.Some? ==> r.value == SsoAnswer(email, draws)
  {
    if !ValidateEmailDomain(email) then None else Some(SsoAnswer(email, draws))
  }

  /** The bounds are tight: every year from 1 to 4 and every course comes
      out of some run of draws. */
  lemma SsoCoversRange(email: string, year: nat, course: nat)
    requires 1 <= year <= 4 && course < |Courses|
    ensures var r := SsoAnswer(email, [0, 0, 0, 0, 0, 0, 0, course, year - 1, 0]);
            r.year == year && r.course == Courses[course]
  {
    ModBelow(year - 1, 4);
  }
}
