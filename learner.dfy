/**
  Two learner actions of `lms-api/controllers/learnerController.js` that reach the
  bank: opening a bank account and buying a course. The platform's own tables are a
  value; each call to the bank service is the corresponding `LedgerSpec` step, and a
  non-2xx reply from the bank is a thrown error that the controller catches.
*/
module Learner {
  import opened Common
  import opened Credentials
  import AccountNumber
  import LedgerSpec

  type UserId = nat
  type CourseId = nat

  /** The platform's organisation account and its secret, hard-coded in the controller. */
  const OrgAccount: LedgerSpec.AccountNo := "LMS-ORG-001"
  const OrgSecret: string := "admin123"
  const MinSecretLength: nat := 4
  /** `initialBalance: 1000` sent with every learner account. */
  const StartingBalance: int := 1000
  const CommissionPercent: int := 70

  datatype Course = Course(title: string, price: int, instructor: UserId)

  /** The `bank_accounts` links, the `enrollments` pairs and the `courses` rows. */
  datatype Platform = Platform(
    links: map<UserId, LedgerSpec.AccountNo>,
    enrollments: set<(UserId, CourseId)>,
    courses: map<CourseId, Course>)

  // ---------------------------------------------------------------------------
  // createBankAccount

  datatype SetupReply =
    | SetupError(message: string)   // the bank-setup page rendered again with an error
    | ToDashboard                   // redirect to /learner/dashboard

  const ShortSecretMessage: string := "Secret must be at least 4 characters"
  const BankFailedMessage: string := "Failed to create bank account. Please try again."

  /** The positions of `s` holding a character outside the Basic Multilingual Plane,
      which UTF-16 writes as a surrogate pair. */
  ghost function Astral(s: string): set<nat> {
    set i: nat | i < |s| && s[i] as int >= 0x1_0000
  }

  ghost function Shifted(positions: set<nat>): set<nat> {
    set i | i in positions :: i + 1
  }

  lemma {:induction false} ShiftedSize(positions: set<nat>)
    ensures |Shifted(positions)| == |positions|
    decreases |positions|
  {
    if positions != {} {
      var x :| x in positions;
      var rest := positions - {x};
      ShiftedSize(rest);
      forall i | i in Shifted(positions)
        ensures i in Shifted(rest) + {x + 1}
      {
        var j :| j in positions && i == j + 1;
        if j != x {
          assert j in rest;
        }
      }
      assert Shifted(positions) == Shifted(rest) + {x + 1};
      assert x + 1 !in Shifted(rest);
    }
  }

  lemma AstralTail(s: string)
    requires s != []
    ensures Astral(s) == (if s[0] as int >= 0x1_0000 then {0} else {}) + Shifted(Astral(s[1..]))
    ensures 0 !in Shifted(Astral(s[1..]))
  {
    forall i: nat | i in Astral(s) && i > 0
      ensures i in Shifted(Astral(s[1..]))
    {
      assert s[1..][i - 1] == s[i];
      assert i - 1 in Astral(s[1..]);
    }
  }

  /** JavaScript's `length`: UTF-16 code units, one per character plus one more for
      each character outside the Basic Multilingual Plane. */
  function Utf16Length(s: string): (n: nat)
    ensures n == |s| + |Astral(s)|
  {
    if s == [] then 0
    else
      AstralTail(s);
      ShiftedSize(Astral(s[1..]));
      (if s[0] as int >= 0x1_0000 then 2 else 1) + Utf16Length(s[1..])
  }

  /** The secret is missing or shorter than the minimum length in UTF-16 units. */
  predicate SecretRejected(secret: string) {
    secret == "" || Utf16Length(secret) < MinSecretLength
  }

  /** Two emoji make a secret of JavaScript length 4, which passes the length check. */
  lemma TwoEmojiSecretAccepted()
    ensures |"\U{1F600}\U{1F600}"| == 2
    ensures !SecretRejected("\U{1F600}\U{1F600}")
  {
  }

  function CreateBankAccount(p: Platform, bank: LedgerSpec.State, user: UserId, secret: string, draw: AccountNumber.Draw)
    : (r: (SetupReply, Platform, LedgerSpec.State))
    ensures SecretRejected(secret) ==> r == (SetupError(ShortSecretMessage), p, bank)
    ensures !SecretRejected(secret) && user in p.links ==> r == (ToDashboard, p, bank)
    ensures !SecretRejected(secret) && user !in p.links && AccountNumber.Generate(draw) in bank.accounts ==>
      r == (SetupError(BankFailedMessage), p, bank)
    ensures !SecretRejected(secret) && user !in p.links && AccountNumber.Generate(draw) !in bank.accounts ==>
      var n := AccountNumber.Generate(draw);
      && r.0 == ToDashboard
      && r.1.links == p.links[user := n]
      && r.2.accounts == bank.accounts[n := LedgerSpec.Account(Hash(secret), StartingBalance)]
      && r.2.log == bank.log
    ensures user in p.links ==> r.1 == p && r.2 == bank
    ensures r.1.enrollments == p.enrollments && r.1.courses == p.courses
    ensures r.1.links.Keys <= p.links.Keys + {user}
    ensures forall u :: u in p.links ==> u in r.1.links && r.1.links[u] == p.links[u]
    ensures r.1 == p <==> r.2 == bank
    ensures r.1 != p ==>
      && !SecretRejected(secret)
      && user !in p.links && user in r.1.links
      && var n := r.1.links[user];
      && n !in bank.accounts
      && r.2.accounts == bank.accounts[n := LedgerSpec.Account(Hash(secret), StartingBalance)]
      && r.2.log == bank.log
      && r.0 == ToDashboard
  {
    if SecretRejected(secret) then (SetupError(ShortSecretMessage), p, bank)
    else if user in p.links then (ToDashboard, p, bank)
    else
      var created := LedgerSpec.CreateAccount(bank, secret, Some(StartingBalance), draw);
      if created.0.Failure? then (SetupError(BankFailedMessage), p, bank)
      else (ToDashboard, p.(links := p.links[user := created.0.value.accountNumber]), created.1)
  }

  // ---------------------------------------------------------------------------
  // purchaseCourse

  datatype PurchaseReply =
    | ToCourse(course: CourseId)                       // redirect to /learner/course/:id
    | CourseNotFound                                   // 404
    | ToBankSetup                                      // redirect to /learner/bank-setup
    | ToCourseWithError(course: CourseId, error: string) // redirect with ?error=...
    | ToLearn(course: CourseId)                        // redirect to /learner/course/:id/learn

  /** The instructor's 70% share of the price, in whole cents, rounded down. */
  function Commission(price: int): (c: int)
    ensures 0 <= price ==> 0 <= c <= price
    ensures 0 <= price ==> c * 100 <= price * CommissionPercent < c * 100 + 100
  {
    price * CommissionPercent / 100
  }

  function PaymentRequest(p: Platform, user: UserId, course: Course, secret: string): LedgerSpec.TransferRequest
    requires user in p.links
  {
    LedgerSpec.TransferRequest(p.links[user], OrgAccount, course.price, secret, "Purchase: " + course.title)
  }

  function CommissionRequest(p: Platform, course: Course): LedgerSpec.TransferRequest
    requires course.instructor in p.links
  {
    LedgerSpec.TransferRequest(OrgAccount, p.links[course.instructor], Commission(course.price), OrgSecret,
      "Commission (70%): " + course.title + " sale")
  }

  /** The learner's payment to the organisation would commit. */
  ghost predicate PaymentGoesThrough(p: Platform, bank: LedgerSpec.State, user: UserId, courseId: CourseId, secret: string) {
    && courseId in p.courses
    && user in p.links
    && LedgerSpec.Transfer(bank, PaymentRequest(p, user, p.courses[courseId], secret)).0.Success?
  }

  /** Already enrolled: stop. Otherwise pay the organisation, enrol only once the
      payment went through, then try to pay the instructor's commission, whose
      failure is ignored. */
  function PurchaseCourse(p: Platform, bank: LedgerSpec.State, user: UserId, courseId: CourseId, secret: string)
    : (r: (PurchaseReply, Platform, LedgerSpec.State))
    ensures (user, courseId) in p.enrollments ==> r == (ToCourse(courseId), p, bank)
    ensures (user, courseId) !in p.enrollments && courseId !in p.courses ==> r == (CourseNotFound, p, bank)
    ensures (user, courseId) !in p.enrollments && courseId in p.courses && user !in p.links ==>
      r == (ToBankSetup, p, bank)
    ensures ((user, courseId) !in p.enrollments && courseId in p.courses && user in p.links
             && !PaymentGoesThrough(p, bank, user, courseId, secret)) ==>
      r == (ToCourseWithError(courseId, "purchase_failed"), p, bank)
    ensures r.1.links == p.links && r.1.courses == p.courses
    ensures r.1.enrollments == if (user, courseId) !in p.enrollments && PaymentGoesThrough(p, bank, user, courseId, secret)
                                then p.enrollments + {(user, courseId)} else p.enrollments
    ensures r.1.enrollments == p.enrollments ==> r.2 == bank
    ensures r.1.enrollments != p.enrollments ==>
      var course := p.courses[courseId];
      var paid := LedgerSpec.Transfer(bank, PaymentRequest(p, user, course, secret)).1;
      && r.0 == ToLearn(courseId)
      && (course.instructor !in p.links ==> r.2 == paid)
      && (course.instructor in p.links ==> r.2 == LedgerSpec.Transfer(paid, CommissionRequest(p, course)).1)
    ensures LedgerSpec.Total(r.2.accounts) == LedgerSpec.Total(bank.accounts)
  {
    if (user, courseId) in p.enrollments then (ToCourse(courseId), p, bank)
    else if courseId !in p.courses then (CourseNotFound, p, bank)
    else if user !in p.links then (ToBankSetup, p, bank)
    else
      var course := p.courses[courseId];
      var payment := LedgerSpec.Transfer(bank, PaymentRequest(p, user, course, secret));
      if payment.0.Failure? then (ToCourseWithError(courseId, "purchase_failed"), p, bank)
      else
        var enrolled := p.(enrollments := p.enrollments + {(user, courseId)});
        if course.instructor !in p.links then (ToLearn(courseId), enrolled, payment.1)
        else
          var commission := LedgerSpec.Transfer(payment.1, CommissionRequest(p, course));
          (ToLearn(courseId), enrolled, commission.1)
  }

  /** The learner's account pays exactly the price when neither the organisation nor
      the instructor shares it. */
  lemma LearnerPaysPrice(p: Platform, bank: LedgerSpec.State, user: UserId, courseId: CourseId, secret: string)
    requires (user, courseId) !in p.enrollments
    requires PaymentGoesThrough(p, bank, user, courseId, secret)
    requires p.links[user] != OrgAccount
    requires p.courses[courseId].instructor in p.links ==> p.links[p.courses[courseId].instructor] != p.links[user]
    ensures
      var after := PurchaseCourse(p, bank, user, courseId, secret).2;
      && p.links[user] in after.accounts
      && after.accounts[p.links[user]].balance == bank.accounts[p.links[user]].balance - p.courses[courseId].price
  {
  }

  /** A course whose price is not positive can never be bought: the bank refuses the
      payment, so no enrollment is created and no money moves. */
  lemma FreeCourseNeverEnrols(p: Platform, bank: LedgerSpec.State, user: UserId, courseId: CourseId, secret: string)
    requires courseId in p.courses && p.courses[courseId].price <= 0
    ensures PurchaseCourse(p, bank, user, courseId, secret).1 == p
    ensures PurchaseCourse(p, bank, user, courseId, secret).2 == bank
  {
  }
}
