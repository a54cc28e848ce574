/** One-time codes of one account, verification codes and reset codes alike, with any number of calls in flight.
    A call reads the row and compares in one step and writes the outcome in a later one. */
module Codes {
  import opened Base

  const CODE_LIFETIME: Time := 15 * 60 * 1000
  const MAX_ATTEMPTS: nat := 5

  /** A verification code works only until the address is verified; a reset code sets a new password. */
  datatype Kind = Verification | Reset

  /** `gen` tells issues of the same digits apart. Code and expiry are stored and cleared together. */
  datatype Slot = Empty | Holding(gen: nat, code: string, expiry: Time)

  datatype Verdict = Missing | Expired | Exhausted | Wrong | Right

  /** The checks of `verifyEmail` and `resetPassword`, in their order. */
  function Judge(slot: Slot, attempts: nat, guess: string, now: Time): Verdict {
    if slot.Empty? then Missing
    else if slot.expiry < now then Expired
    else if attempts >= MAX_ATTEMPTS then Exhausted
    else if guess != slot.code then Wrong
    else Right
  }

  datatype Issue = Issue(code: string, at: Time)

  /** What a successful call saw when it compared. */
  datatype Ticket = Ticket(gen: nat, guess: string, readAt: Time, attemptsSeen: nat, newPassword: string)

  /** A password change with the current password: what was presented and what was stored when it was compared. */
  datatype Change = Change(presented: string, stored: string, newPassword: string)

  datatype PasswordSource = ByReset(ticket: Ticket) | ByChange(change: Change)

  /** The account's row (`live`, `verified`, `slot`, `attempts`, `password`), the calls between their read and their
      write (`issuing`, `bumping`, `passing`, `changing`), and a record of the past (`issued`, `wrong` and `accepted`
      per issue, `passed`, `passwords`). */
  datatype Desk = Desk(
    kind: Kind,
    live: bool, verified: bool, slot: Slot, attempts: nat, password: string,
    issuing: multiset<Issue>, bumping: multiset<nat>, passing: multiset<Ticket>, changing: multiset<Change>,
    issued: seq<Issue>, wrong: seq<nat>, accepted: seq<nat>, passed: seq<Ticket>, passwords: seq<PasswordSource>)

  function NewDesk(kind: Kind, password: string): Desk {
    Desk(kind, true, false, Empty, 0, password, multiset{}, multiset{}, multiset{}, multiset{}, [], [], [], [], [])
  }

  datatype Label =
    | BeginIssue(issue: Issue)
    | FinishIssue(issue: Issue)
    | Present(guess: string, now: Time, newPassword: string)
    | FinishWrong(gen: nat)
    | FinishRight(ticket: Ticket)
    | BeginChange(presented: string, newPassword: string)
    | FinishChange(change: Change)
    | DeleteRow

  /** Calls that have compared a code and not yet written the outcome. */
  function InFlight(d: Desk): nat {
    |d.bumping| + |d.passing|
  }

  /** A verified address needs no code. */
  predicate Closed(d: Desk) {
    d.kind == Verification && d.verified
  }

  /** The slot always holds a recorded issue, with the expiry computed for it. */
  predicate WellFormed(d: Desk) {
    && |d.wrong| == |d.issued| && |d.accepted| == |d.issued|
    && (!d.live ==> d.slot.Empty?)
    && (d.slot.Holding? ==>
          d.slot.gen < |d.issued| && d.slot == Holding(d.slot.gen, d.issued[d.slot.gen].code, d.issued[d.slot.gen].at + CODE_LIFETIME))
  }

  function StartIssue(d: Desk, issue: Issue): Desk {
    if !d.live || Closed(d) then d
    else d.(issuing := d.issuing + multiset{issue})
  }

  /** The expiry was computed when the code was, before the write. */
  function WriteIssue(d: Desk, issue: Issue): Desk {
    if !d.live then d
    else d.(slot := Holding(|d.issued|, issue.code, issue.at + CODE_LIFETIME), attempts := 0,
            issued := d.issued + [issue], wrong := d.wrong + [0], accepted := d.accepted + [0])
  }

  function PresentCode(d: Desk, guess: string, now: Time, newPassword: string): Desk
    requires WellFormed(d)
  {
    if !d.live || Closed(d) then d
    else
      match Judge(d.slot, d.attempts, guess, now)
      case Wrong =>
        d.(bumping := d.bumping + multiset{d.slot.gen}, wrong := d.wrong[d.slot.gen := d.wrong[d.slot.gen] + 1])
      case Right =>
        d.(passing := d.passing + multiset{Ticket(d.slot.gen, guess, now, d.attempts, newPassword)},
           accepted := d.accepted[d.slot.gen := d.accepted[d.slot.gen] + 1])
      case _ => d
  }

  function WriteWrong(d: Desk): Desk {
    if d.live then d.(attempts := d.attempts + 1) else d
  }

  function WritePass(d: Desk, t: Ticket): Desk {
    if !d.live then d
    else
      var cleared := d.(slot := Empty, attempts := 0, passed := d.passed + [t]);
      match d.kind
      case Verification => cleared.(verified := true)
      case Reset => cleared.(password := t.newPassword, passwords := d.passwords + [ByReset(t)])
  }

  function StartChange(d: Desk, presented: string, newPassword: string): Desk {
    if !d.live || presented != d.password then d
    else d.(changing := d.changing + multiset{Change(presented, d.password, newPassword)})
  }

  function WriteChange(d: Desk, change: Change): Desk {
    if d.live then d.(password := change.newPassword, passwords := d.passwords + [ByChange(change)]) else d
  }

  /** A label that is not enabled leaves the desk as it was. */
  function Step(d: Desk, l: Label): Desk
    requires WellFormed(d)
  {
    match l
    case BeginIssue(issue) => StartIssue(d, issue)
    case FinishIssue(issue) =>
      if issue in d.issuing then WriteIssue(d.(issuing := d.issuing - multiset{issue}), issue) else d
    case Present(guess, now, newPassword) => PresentCode(d, guess, now, newPassword)
    case FinishWrong(gen) =>
      if gen in d.bumping then WriteWrong(d.(bumping := d.bumping - multiset{gen})) else d
    case FinishRight(t) =>
      if t in d.passing then WritePass(d.(passing := d.passing - multiset{t}), t) else d
    case BeginChange(presented, newPassword) => StartChange(d, presented, newPassword)
    case FinishChange(change) =>
      if change in d.changing then WriteChange(d.(changing := d.changing - multiset{change}), change) else d
    case DeleteRow => d.(live := false, slot := Empty)
  }

  lemma PresentIsWellFormed(d: Desk, guess: string, now: Time, newPassword: string)
    requires WellFormed(d)
    ensures WellFormed(PresentCode(d, guess, now, newPassword))
  {
    var d' := PresentCode(d, guess, now, newPassword);
    assert d'.slot == d.slot && d'.issued == d.issued && d'.live == d.live;
  }

  lemma PassIsWellFormed(d: Desk, t: Ticket)
    requires WellFormed(d)
    ensures WellFormed(WritePass(d, t))
  {
  }

  lemma IssueIsWellFormed(d: Desk, issue: Issue)
    requires WellFormed(d)
    ensures WellFormed(WriteIssue(d, issue))
  {
  }

  lemma OthersAreWellFormed(d: Desk, l: Label)
    requires WellFormed(d) && !l.FinishIssue? && !l.Present? && !l.FinishRight?
    ensures WellFormed(Step(d, l))
  {
  }

  lemma StepIsWellFormed(d: Desk, l: Label)
    requires WellFormed(d)
    ensures WellFormed(Step(d, l))
  {
    match l
    case FinishIssue(issue) => IssueIsWellFormed(d.(issuing := d.issuing - multiset{issue}), issue);
    case Present(guess, now, newPassword) => PresentIsWellFormed(d, guess, now, newPassword);
    case FinishRight(t) => PassIsWellFormed(d.(passing := d.passing - multiset{t}), t);
    case _ => OthersAreWellFormed(d, l);
  }

  ghost function Run(d: Desk, ls: seq<Label>): (r: Desk)
    requires WellFormed(d)
    ensures WellFormed(r)
  {
    if ls == [] then d
    else
      var before := Run(d, ls[..|ls| - 1]);
      StepIsWellFormed(before, ls[|ls| - 1]);
      Step(before, ls[|ls| - 1])
  }

  /** A call that nobody interrupts: compare, then write the outcome. */
  function PresentAlone(d: Desk, guess: string, now: Time, newPassword: string): Desk
    requires WellFormed(d)
  {
    var read := Step(d, Present(guess, now, newPassword));
    StepIsWellFormed(d, Present(guess, now, newPassword));
    if Closed(d) then read
    else
      match Judge(d.slot, d.attempts, guess, now)
      case Wrong => Step(read, FinishWrong(d.slot.gen))
      case Right => Step(read, FinishRight(Ticket(d.slot.gen, guess, now, d.attempts, newPassword)))
      case _ => read
  }

  /** An undisturbed request for a code: nothing for a closed desk, otherwise begun and written. */
  function IssueAlone(d: Desk, issue: Issue): Desk
    requires WellFormed(d)
  {
    var begun := Step(d, BeginIssue(issue));
    StepIsWellFormed(d, BeginIssue(issue));
    if !d.live || Closed(d) then begun else Step(begun, FinishIssue(issue))
  }

  /** An undisturbed password change. */
  function ChangeAlone(d: Desk, presented: string, newPassword: string): Desk
    requires WellFormed(d)
  {
    var begun := Step(d, BeginChange(presented, newPassword));
    StepIsWellFormed(d, BeginChange(presented, newPassword));
    if !d.live || presented != d.password then begun
    else Step(begun, FinishChange(Change(presented, d.password, newPassword)))
  }

  lemma IssueAloneOutcome(d: Desk, issue: Issue)
    requires WellFormed(d) && d.live
    ensures IssueAlone(d, issue) == if Closed(d) then d else WriteIssue(d, issue)
  {
    assert d.issuing + multiset{issue} - multiset{issue} == d.issuing;
  }

  lemma ChangeAloneOutcome(d: Desk, presented: string, newPassword: string)
    requires WellFormed(d) && d.live
    ensures ChangeAlone(d, presented, newPassword) ==
            if presented != d.password then d else WriteChange(d, Change(presented, d.password, newPassword))
  {
    var change := Change(presented, d.password, newPassword);
    assert d.changing + multiset{change} - multiset{change} == d.changing;
  }

  lemma WrongAlone(d: Desk, guess: string, now: Time, newPassword: string)
    requires WellFormed(d) && d.live && !Closed(d) && Judge(d.slot, d.attempts, guess, now) == Wrong
    ensures PresentAlone(d, guess, now, newPassword) ==
            d.(attempts := d.attempts + 1, wrong := d.wrong[d.slot.gen := d.wrong[d.slot.gen] + 1])
  {
    assert d.bumping + multiset{d.slot.gen} - multiset{d.slot.gen} == d.bumping;
  }

  lemma RightAlone(d: Desk, guess: string, now: Time, newPassword: string)
    requires WellFormed(d) && d.live && !Closed(d) && Judge(d.slot, d.attempts, guess, now) == Right
    ensures PresentAlone(d, guess, now, newPassword) ==
            WritePass(d.(accepted := d.accepted[d.slot.gen := d.accepted[d.slot.gen] + 1]),
                      Ticket(d.slot.gen, guess, now, d.attempts, newPassword))
  {
    var t := Ticket(d.slot.gen, guess, now, d.attempts, newPassword);
    assert d.passing + multiset{t} - multiset{t} == d.passing;
  }

  /** What an undisturbed call leaves in the row. */
  lemma PresentAloneOutcome(d: Desk, guess: string, now: Time, newPassword: string)
    requires WellFormed(d) && d.live
    ensures var after := PresentAlone(d, guess, now, newPassword);
            && after.kind == d.kind && after.live && InFlight(after) == InFlight(d)
            && (Closed(d) ==> after == d)
            && (!Closed(d) ==>
                  match Judge(d.slot, d.attempts, guess, now)
                  case Right =>
                    && after.slot == Empty && after.attempts == 0
                    && after.verified == (d.verified || d.kind == Verification)
                    && after.password == (if d.kind == Reset then newPassword else d.password)
                  case Wrong =>
                    && after.slot == d.slot && after.attempts == d.attempts + 1
                    && after.verified == d.verified && after.password == d.password
                  case _ => after == d)
  {
    if !Closed(d) {
      var verdict := Judge(d.slot, d.attempts, guess, now);
      if verdict == Wrong {
        WrongAlone(d, guess, now, newPassword);
      } else if verdict == Right {
        RightAlone(d, guess, now, newPassword);
      }
    }
  }

  /** Writes land on whatever the row holds by then: a wrong guess counts against the current code, a right one clears even
      a code issued meanwhile, a new code replaces the old one and its count, and a new password replaces the stored one. */
  lemma LateWrites(d: Desk, l: Label)
    requires WellFormed(d) && d.live
    ensures var after := Step(d, l);
            && (l.FinishWrong? && l.gen in d.bumping ==> after.attempts == d.attempts + 1 && after.slot == d.slot)
            && (l.FinishRight? && l.ticket in d.passing ==>
                  && after.slot == Empty && after.attempts == 0
                  && (d.kind == Verification ==> after.verified) && (d.kind == Reset ==> after.password == l.ticket.newPassword))
            && (l.FinishIssue? && l.issue in d.issuing ==>
                  && after.slot.Holding? && after.slot.code == l.issue.code && after.slot.expiry == l.issue.at + 900000
                  && after.attempts == 0)
            && (l.FinishChange? && l.change in d.changing ==> after.password == l.change.newPassword)
            && (l.DeleteRow? ==> !after.live)
  {
  }

  function Max(a: nat, b: nat): nat {
    if a < b then b else a
  }

  /** The largest number of calls in flight at any moment of a run. */
  ghost function Peak(d: Desk, ls: seq<Label>): nat
    requires WellFormed(d)
  {
    if ls == [] then InFlight(d) else Max(Peak(d, ls[..|ls| - 1]), InFlight(Run(d, ls)))
  }

  // ---- how much guessing one code allows ----

  /** The bounds while at most `k` calls were ever in flight. */
  ghost predicate Bounded(d: Desk, k: nat) {
    && WellFormed(d) && InFlight(d) <= k
    && d.attempts + |d.bumping| <= MAX_ATTEMPTS - 1 + k
    && (d.slot.Holding? ==>
          && d.wrong[d.slot.gen] <= d.attempts + |d.bumping|
          && d.accepted[d.slot.gen] <= |d.passing|)
    && (forall g :: 0 <= g < |d.issued| ==> d.wrong[g] <= MAX_ATTEMPTS - 1 + k && d.accepted[g] <= k)
  }

  lemma PresentKeepsBounds(d: Desk, guess: string, now: Time, newPassword: string, k: nat)
    requires Bounded(d, k) && InFlight(PresentCode(d, guess, now, newPassword)) <= k
    ensures Bounded(PresentCode(d, guess, now, newPassword), k)
  {
  }

  lemma IssueKeepsBounds(d: Desk, issue: Issue, k: nat)
    requires Bounded(d, k) && issue in d.issuing
    ensures Bounded(Step(d, FinishIssue(issue)), k)
  {
  }

  lemma WrongKeepsBounds(d: Desk, gen: nat, k: nat)
    requires Bounded(d, k) && gen in d.bumping
    ensures Bounded(Step(d, FinishWrong(gen)), k)
  {
    assert |d.bumping - multiset{gen}| == |d.bumping| - 1;
  }

  lemma PassKeepsBounds(d: Desk, t: Ticket, k: nat)
    requires Bounded(d, k) && t in d.passing
    ensures Bounded(Step(d, FinishRight(t)), k)
  {
    assert |d.passing - multiset{t}| == |d.passing| - 1;
  }

  lemma OthersKeepBounds(d: Desk, l: Label, k: nat)
    requires Bounded(d, k) && (l.BeginIssue? || l.BeginChange? || l.FinishChange? || l.DeleteRow?)
    ensures Bounded(Step(d, l), k)
  {
  }

  lemma StepKeepsBounds(d: Desk, l: Label, k: nat)
    requires Bounded(d, k) && InFlight(Step(d, l)) <= k
    ensures Bounded(Step(d, l), k)
  {
    match l
    case FinishIssue(issue) => if issue in d.issuing { IssueKeepsBounds(d, issue, k); }
    case Present(guess, now, newPassword) => PresentKeepsBounds(d, guess, now, newPassword, k);
    case FinishWrong(gen) => if gen in d.bumping { WrongKeepsBounds(d, gen, k); }
    case FinishRight(t) => if t in d.passing { PassKeepsBounds(d, t, k); }
    case _ => OthersKeepBounds(d, l, k);
  }

  lemma BoundsGrow(d: Desk, k: nat, m: nat)
    requires Bounded(d, k) && k <= m
    ensures Bounded(d, m)
  {
  }

  lemma {:induction false} RunIsBounded(kind: Kind, password: string, ls: seq<Label>)
    ensures Bounded(Run(NewDesk(kind, password), ls), Peak(NewDesk(kind, password), ls))
  {
    var d := NewDesk(kind, password);
    if ls != [] {
      var front := ls[..|ls| - 1];
      RunIsBounded(kind, password, front);
      BoundsGrow(Run(d, front), Peak(d, front), Peak(d, ls));
      StepKeepsBounds(Run(d, front), ls[|ls| - 1], Peak(d, ls));
    }
  }

  /** If at most k calls are ever in flight at once, the counter stays within 4 + k, one issued code meets at most
      4 + k wrong guesses, however often codes are issued meanwhile, and one issued code is accepted at most k times.
      Without overlap (k = 1) that is five wrong guesses and one success. */
  lemma BoundedGuessing(kind: Kind, password: string, ls: seq<Label>, gen: nat)
    ensures var d := Run(NewDesk(kind, password), ls);
            var k := Peak(NewDesk(kind, password), ls);
            && d.attempts <= 4 + k
            && (gen < |d.issued| ==> d.wrong[gen] <= 4 + k && d.accepted[gen] <= k)
  {
    RunIsBounded(kind, password, ls);
  }

  // ---- what a success proves ----

  /** The call presented the very code of a recorded issue, at most fifteen minutes after it was issued, and saw
      fewer than five counted attempts. */
  ghost predicate Justified(d: Desk, t: Ticket) {
    && t.gen < |d.issued|
    && t.guess == d.issued[t.gen].code
    && t.readAt - d.issued[t.gen].at <= 900000
    && t.attemptsSeen < 5
  }

  ghost predicate SourceOk(d: Desk, p: PasswordSource) {
    match p
    case ByReset(t) => d.kind == Reset && Justified(d, t)
    case ByChange(c) => c.presented == c.stored
  }

  function Written(p: PasswordSource): string {
    if p.ByReset? then p.ticket.newPassword else p.change.newPassword
  }

  ghost predicate Authorised(d: Desk) {
    && WellFormed(d)
    && (forall t :: t in d.passing ==> Justified(d, t))
    && (forall t :: t in d.passed ==> Justified(d, t))
    && (forall c :: c in d.changing ==> c.presented == c.stored)
    && (forall p :: p in d.passwords ==> SourceOk(d, p))
    && (d.verified ==> d.kind == Verification && d.passed != [])
  }

  /** More issues never unjustify a call. */
  lemma IssueKeepsJustified(d: Desk, issue: Issue)
    requires Authorised(d) && issue in d.issuing
    ensures Authorised(Step(d, FinishIssue(issue)))
  {
    var d' := Step(d, FinishIssue(issue));
    assert forall t :: Justified(d, t) ==> Justified(d', t);
    assert forall p :: SourceOk(d, p) ==> SourceOk(d', p);
  }

  /** The checks before the comparison are what justifies a success. */
  lemma PresentIsJustified(d: Desk, guess: string, now: Time, newPassword: string)
    requires Authorised(d)
    ensures Authorised(Step(d, Present(guess, now, newPassword)))
  {
    var d' := Step(d, Present(guess, now, newPassword));
    assert d'.issued == d.issued && d'.kind == d.kind;
    assert forall t :: Justified(d, t) <==> Justified(d', t);
    assert forall p :: SourceOk(d, p) <==> SourceOk(d', p);
  }

  lemma PassRecords(d: Desk, t: Ticket)
    requires WellFormed(d) && t in d.passing
    ensures var d' := Step(d, FinishRight(t));
            && d'.issued == d.issued && d'.kind == d.kind && d'.changing == d.changing
            && (d'.passed == d.passed || d'.passed == d.passed + [t])
            && (d'.passwords == d.passwords || (d.kind == Reset && d'.passwords == d.passwords + [ByReset(t)]))
            && (d'.verified ==> d.verified || (d.kind == Verification && d'.passed == d.passed + [t]))
            && d'.password == (if d'.passwords == d.passwords then d.password else t.newPassword)
            && d'.passing <= d.passing && |d'.passed| >= |d.passed|
  {
  }

  lemma PassKeepsJustified(d: Desk, t: Ticket)
    requires Authorised(d) && t in d.passing
    ensures Authorised(Step(d, FinishRight(t)))
  {
    var d' := Step(d, FinishRight(t));
    StepIsWellFormed(d, FinishRight(t));
    PassRecords(d, t);
    forall u | u in d'.passing || u in d'.passed ensures Justified(d', u) {
      assert Justified(d, u);
    }
    forall p | p in d'.passwords ensures SourceOk(d', p) {
      assert p == ByReset(t) || SourceOk(d, p);
    }
  }

  lemma ChangeKeepsJustified(d: Desk, change: Change)
    requires Authorised(d) && change in d.changing
    ensures Authorised(Step(d, FinishChange(change)))
  {
    var d' := Step(d, FinishChange(change));
    assert forall u :: Justified(d, u) <==> Justified(d', u);
    assert forall p :: SourceOk(d, p) <==> SourceOk(d', p);
  }

  /** Nothing that justifies a success changed. */
  lemma SameRecordIsAuthorised(d: Desk, d': Desk)
    requires Authorised(d) && WellFormed(d')
    requires d'.issued == d.issued && d'.kind == d.kind && d'.passing == d.passing && d'.passed == d.passed
    requires d'.passwords == d.passwords && d'.password == d.password && d'.verified == d.verified
    requires forall c :: c in d'.changing ==> c.presented == c.stored
    ensures Authorised(d')
  {
    assert forall u :: Justified(d, u) <==> Justified(d', u);
    assert forall p :: SourceOk(d, p) <==> SourceOk(d', p);
  }

  lemma OthersKeepRecord(d: Desk, l: Label)
    requires WellFormed(d) && (l.BeginIssue? || l.FinishWrong? || l.BeginChange? || l.DeleteRow?)
    ensures var d' := Step(d, l);
            && d'.issued == d.issued && d'.kind == d.kind && d'.passing == d.passing && d'.passed == d.passed
            && d'.passwords == d.passwords && d'.password == d.password && d'.verified == d.verified
            && (forall c :: c in d'.changing ==> c in d.changing || c.presented == c.stored)
  {
  }

  lemma OthersKeepAuthorised(d: Desk, l: Label)
    requires Authorised(d) && (l.BeginIssue? || l.FinishWrong? || l.BeginChange? || l.DeleteRow?)
    ensures Authorised(Step(d, l))
  {
    StepIsWellFormed(d, l);
    OthersKeepRecord(d, l);
    SameRecordIsAuthorised(d, Step(d, l));
  }

  lemma StepKeepsAuthorised(d: Desk, l: Label)
    requires Authorised(d)
    ensures Authorised(Step(d, l))
  {
    match l
    case FinishIssue(issue) => if issue in d.issuing { IssueKeepsJustified(d, issue); }
    case Present(guess, now, newPassword) => PresentIsJustified(d, guess, now, newPassword);
    case FinishRight(t) => if t in d.passing { PassKeepsJustified(d, t); }
    case FinishChange(change) => if change in d.changing { ChangeKeepsJustified(d, change); }
    case _ => OthersKeepAuthorised(d, l);
  }

  lemma StepKeepsKind(d: Desk, l: Label)
    requires WellFormed(d)
    ensures Step(d, l).kind == d.kind
  {
  }

  lemma {:induction false} RunIsAuthorised(d: Desk, ls: seq<Label>)
    requires Authorised(d)
    ensures Authorised(Run(d, ls)) && Run(d, ls).kind == d.kind
  {
    if ls != [] {
      var before := Run(d, ls[..|ls| - 1]);
      RunIsAuthorised(d, ls[..|ls| - 1]);
      StepKeepsAuthorised(before, ls[|ls| - 1]);
      StepKeepsKind(before, ls[|ls| - 1]);
    }
  }

  // ---- where stored passwords come from ----

  /** `w` is the first password, or was written by one of the first `n` recorded writes. */
  ghost predicate Earlier(d: Desk, n: nat, first: string, w: string)
    requires n <= |d.passwords|
  {
    w == first || exists i :: 0 <= i < n && Written(d.passwords[i]) == w
  }

  ghost predicate SourceEarlier(d: Desk, j: nat, first: string)
    requires j < |d.passwords|
  {
    d.passwords[j].ByChange? ==> Earlier(d, j, first, d.passwords[j].change.stored)
  }

  /** What a password change compared with was the account's password at some earlier point. */
  ghost predicate Anchored(d: Desk, first: string) {
    && d.password == (if d.passwords == [] then first else Written(d.passwords[|d.passwords| - 1]))
    && (forall c :: c in d.changing ==> Earlier(d, |d.passwords|, first, c.stored))
    && (forall j :: 0 <= j < |d.passwords| ==> SourceEarlier(d, j, first))
  }

  lemma EarlierStays(d: Desk, d': Desk, n: nat, m: nat, first: string, w: string)
    requires n <= m <= |d'.passwords| && n <= |d.passwords| && d'.passwords[..n] == d.passwords[..n]
    requires Earlier(d, n, first, w)
    ensures Earlier(d', m, first, w)
  {
    if w != first {
      var i :| 0 <= i < n && Written(d.passwords[i]) == w;
      assert d'.passwords[i] == d.passwords[..n][i];
    }
  }

  /** Recording one more write whose source is earlier keeps everything anchored. */
  lemma RecordKeepsAnchored(d: Desk, d': Desk, p: PasswordSource, first: string)
    requires Anchored(d, first) && d'.passwords == d.passwords + [p] && d'.password == Written(p)
    requires forall c :: c in d'.changing ==> c in d.changing
    requires p.ByChange? ==> p.change in d.changing
    ensures Anchored(d', first)
  {
    var n := |d.passwords|;
    forall c | c in d.changing ensures Earlier(d', n, first, c.stored) && Earlier(d', n + 1, first, c.stored) {
      EarlierStays(d, d', n, n, first, c.stored);
      EarlierStays(d, d', n, n + 1, first, c.stored);
    }
    forall j | 0 <= j < n + 1 ensures SourceEarlier(d', j, first) {
      if j < n && d.passwords[j].ByChange? {
        assert SourceEarlier(d, j, first);
        EarlierStays(d, d', j, j, first, d.passwords[j].change.stored);
      }
    }
  }

  /** Nothing was written; a change that has just compared read the stored password. */
  lemma SameWritesStayAnchored(d: Desk, d': Desk, first: string)
    requires Anchored(d, first) && d'.passwords == d.passwords && d'.password == d.password
    requires forall c :: c in d'.changing ==> c in d.changing || c.stored == d.password
    ensures Anchored(d', first)
  {
    var n := |d.passwords|;
    forall c | c in d'.changing ensures Earlier(d', n, first, c.stored) {
      if c in d.changing {
        EarlierStays(d, d', n, n, first, c.stored);
      } else if n > 0 {
        assert Written(d'.passwords[n - 1]) == c.stored;
      }
    }
    forall j | 0 <= j < n ensures SourceEarlier(d', j, first) {
      assert SourceEarlier(d, j, first);
    }
  }

  lemma ChangeRecords(d: Desk, change: Change)
    requires WellFormed(d) && change in d.changing
    ensures var d' := Step(d, FinishChange(change));
            && d'.changing <= d.changing
            && (d'.passwords == d.passwords || d'.passwords == d.passwords + [ByChange(change)])
            && d'.password == (if d'.passwords == d.passwords then d.password else change.newPassword)
  {
  }

  lemma OthersWriteNoPassword(d: Desk, l: Label)
    requires WellFormed(d) && !l.FinishRight? && !l.FinishChange?
    ensures var d' := Step(d, l);
            && d'.passwords == d.passwords && d'.password == d.password
            && forall c :: c in d'.changing ==> c in d.changing || c.stored == d.password
  {
  }

  lemma StepKeepsAnchored(d: Desk, l: Label, first: string)
    requires WellFormed(d) && Anchored(d, first)
    ensures Anchored(Step(d, l), first)
  {
    var d' := Step(d, l);
    if l.FinishRight? && l.ticket in d.passing {
      PassRecords(d, l.ticket);
    } else if l.FinishChange? && l.change in d.changing {
      ChangeRecords(d, l.change);
    } else if !l.FinishRight? && !l.FinishChange? {
      OthersWriteNoPassword(d, l);
    }
    if d'.passwords == d.passwords {
      SameWritesStayAnchored(d, d', first);
    } else {
      RecordKeepsAnchored(d, d', if l.FinishRight? then ByReset(l.ticket) else ByChange(l.change), first);
    }
  }

  lemma {:induction false} RunIsAnchored(d: Desk, ls: seq<Label>, first: string)
    requires WellFormed(d) && Anchored(d, first)
    ensures Anchored(Run(d, ls), first)
  {
    if ls != [] {
      RunIsAnchored(d, ls[..|ls| - 1], first);
      StepKeepsAnchored(Run(d, ls[..|ls| - 1]), ls[|ls| - 1], first);
    }
  }

  /** The `j`-th password write was a justified reset, or a change by somebody who had presented a password that really
      was the account's: the first one, or one written before. */
  ghost predicate AuthorisedWrite(d: Desk, j: nat, first: string)
    requires j < |d.passwords|
  {
    match d.passwords[j]
    case ByReset(t) => d.kind == Reset && Justified(d, t)
    case ByChange(c) => c.presented == c.stored && Earlier(d, j, first, c.stored)
  }

  /** In any interleaving, a verified account has a justified pass behind it, every password ever written was written by
      an authorised call, and the stored password is the last one written, or the first. */
  lemma CodesAuthorise(kind: Kind, password: string, ls: seq<Label>)
    ensures var d := Run(NewDesk(kind, password), ls);
            && (d.verified ==> kind == Verification && exists t :: t in d.passed && Justified(d, t))
            && (forall j :: 0 <= j < |d.passwords| ==> AuthorisedWrite(d, j, password))
            && d.password == (if d.passwords == [] then password else Written(d.passwords[|d.passwords| - 1]))
  {
    RunIsAuthorised(NewDesk(kind, password), ls);
    RunIsAnchored(NewDesk(kind, password), ls, password);
    var d := Run(NewDesk(kind, password), ls);
    if d.verified {
      assert d.passed[0] in d.passed;
    }
    forall j | 0 <= j < |d.passwords| ensures AuthorisedWrite(d, j, password) {
      assert SourceOk(d, d.passwords[j]) && SourceEarlier(d, j, password);
    }
  }

  // ---- the bound is reached ----

  const WORST := Issue("111111", 0)

  /** The code `WORST` was issued first and met `wrong` wrong guesses, `pending` of them not yet counted. */
  ghost predicate AtWorst(d: Desk, attempts: nat, wrong: nat, pending: nat) {
    && WellFormed(d) && d.live && !d.verified
    && d.slot.Holding? && d.slot.gen == 0 && d.issued == [WORST]
    && d.attempts == attempts && d.wrong == [wrong]
    && |d.bumping| == d.bumping[0] == pending && |d.passing| == 0
  }

  lemma RunExtends(d: Desk, ls: seq<Label>, l: Label)
    requires WellFormed(d)
    ensures Run(d, ls + [l]) == Step(Run(d, ls), l)
    ensures Peak(d, ls + [l]) == Max(Peak(d, ls), InFlight(Step(Run(d, ls), l)))
  {
    assert (ls + [l])[..|ls + [l]| - 1] == ls;
  }

  lemma WrongGuess(d: Desk, attempts: nat, wrong: nat, pending: nat)
    requires AtWorst(d, attempts, wrong, pending) && attempts < MAX_ATTEMPTS
    ensures AtWorst(Step(d, Present("000000", 0, "")), attempts, wrong + 1, pending + 1)
  {
    assert d.slot.code == WORST.code && d.slot.expiry == CODE_LIFETIME;
    assert "000000"[0] != WORST.code[0];
  }

  lemma WrongCounted(d: Desk, attempts: nat, wrong: nat, pending: nat)
    requires AtWorst(d, attempts, wrong, pending) && pending > 0
    ensures AtWorst(Step(d, FinishWrong(0)), attempts + 1, wrong, pending - 1)
  {
    assert |d.bumping - multiset{0}| == |d.bumping| - 1;
  }

  lemma FirstIssue(d: Desk) returns (ls: seq<Label>)
    requires d == NewDesk(d.kind, d.password)
    ensures AtWorst(Run(d, ls), 0, 0, 0) && Peak(d, ls) == 0
  {
    var started := Step(d, BeginIssue(WORST));
    RunExtends(d, [], BeginIssue(WORST));
    assert [] + [BeginIssue(WORST)] == [BeginIssue(WORST)];
    assert Run(d, [BeginIssue(WORST)]) == started && InFlight(started) == 0;
    RunExtends(d, [BeginIssue(WORST)], FinishIssue(WORST));
    ls := [BeginIssue(WORST)] + [FinishIssue(WORST)];
  }

  lemma FinishedGuess(d: Desk, ls: seq<Label>, j: nat) returns (longer: seq<Label>)
    requires WellFormed(d) && j < MAX_ATTEMPTS && AtWorst(Run(d, ls), j, j, 0) && Peak(d, ls) <= 1
    ensures AtWorst(Run(d, longer), j + 1, j + 1, 0) && Peak(d, longer) <= 1
  {
    var guess, count := Present("000000", 0, ""), FinishWrong(0);
    RunExtends(d, ls, guess);
    WrongGuess(Run(d, ls), j, j, 0);
    var mid := Run(d, ls + [guess]);
    assert InFlight(mid) == 1;
    RunExtends(d, ls + [guess], count);
    WrongCounted(mid, j, j + 1, 1);
    longer := ls + [guess] + [count];
  }

  /** One issue and then four wrong guesses, each finished before the next. */
  lemma FourInARow(d: Desk) returns (ls: seq<Label>)
    requires d == NewDesk(d.kind, d.password)
    ensures AtWorst(Run(d, ls), 4, 4, 0) && Peak(d, ls) <= 1
  {
    var none := FirstIssue(d);
    var one := FinishedGuess(d, none, 0);
    var two := FinishedGuess(d, one, 1);
    var three := FinishedGuess(d, two, 2);
    ls := FinishedGuess(d, three, 3);
  }

  lemma OpenGuess(d: Desk, ls: seq<Label>, k: nat) returns (longer: seq<Label>)
    requires WellFormed(d) && AtWorst(Run(d, ls), 4, 4 + k, k) && Peak(d, ls) <= k + 1
    ensures AtWorst(Run(d, longer), 4, 5 + k, k + 1) && Peak(d, longer) == k + 1
  {
    RunExtends(d, ls, Present("000000", 0, ""));
    WrongGuess(Run(d, ls), 4, 4 + k, k);
    longer := ls + [Present("000000", 0, "")];
  }

  /** For every k there is a run with at most k calls in flight in which one code meets exactly 4 + k wrong guesses. */
  lemma {:induction false} GuessingBoundIsTight(d: Desk, k: nat) returns (ls: seq<Label>)
    requires d == NewDesk(d.kind, d.password) && k >= 1
    ensures AtWorst(Run(d, ls), 4, 4 + k, k) && Peak(d, ls) == k
  {
    var shorter;
    if k == 1 {
      shorter := FourInARow(d);
    } else {
      shorter := GuessingBoundIsTight(d, k - 1);
    }
    ls := OpenGuess(d, shorter, k - 1);
  }
}
