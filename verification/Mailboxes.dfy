/** One e-mail address, one founder: what the search by e-mail keeps over every run. */
module Mailboxes {
  import opened Prelude
  import opened Candidates
  import opened CandidateRuns

  /** The address is one of the person's, whatever its case. */
  ghost predicate Reads(text: TextRules, p: Person, email: string) {
    exists k :: 0 <= k < |p.emails| && text.fold(p.emails[k]) == email
  }

  /** No two persons that are still on their own have addresses that fold alike. */
  ghost predicate OnePersonPerMail(text: TextRules, persons: seq<Person>) {
    forall i, j, email :: 0 <= i < j < |persons| && !persons[i].merged && !persons[j].merged ==>
      !(Reads(text, persons[i], email) && Reads(text, persons[j], email))
  }

  /** Folding a folded text changes nothing. */
  ghost predicate FoldsOnce(text: TextRules) {
    forall s :: text.fold(text.fold(s)) == text.fold(s)
  }

  lemma MailedIff(text: TextRules, p: Person, email: string)
    ensures Mailed(text, email)(p) <==> !p.merged && Reads(text, p, email)
  {
    if !p.merged && exists e <- p.emails :: text.fold(e) == email {
      var e :| e in p.emails && text.fold(e) == email;
      var k :| 0 <= k < |p.emails| && p.emails[k] == e;
    }
  }

  lemma ReadsMore(text: TextRules, p: Person, email: string, read: string)
    ensures Reads(text, p.(emails := p.emails + [email]), read) <==> Reads(text, p, read) || text.fold(email) == read
  {
    var more := p.(emails := p.emails + [email]);
    assert more.emails[|p.emails|] == email;
    if Reads(text, p, read) {
      var k :| 0 <= k < |p.emails| && text.fold(p.emails[k]) == read;
      assert more.emails[k] == p.emails[k];
    }
  }

  /**
    * The founder of an application that gives an address: the one who had it, if anybody did, and otherwise one
    * found by name, or new, who has it now.
    */
  lemma MailDecides(text: TextRules, db: Db, name: string, email: string)
    requires FoldsOnce(text) && text.fold(email) == email
    ensures
      var (next, i) := EnsureFounder(text, db, name, Some(email));
      && !next.persons[i].merged && Reads(text, next.persons[i], email)
      && (forall j :: 0 <= j < |db.persons| && j != i ==> next.persons[j] == db.persons[j])
      && |db.persons| <= |next.persons| <= |db.persons| + 1
      && (forall j :: 0 <= j < |db.persons| && !db.persons[j].merged && Reads(text, db.persons[j], email) ==>
            i < |db.persons| && Reads(text, db.persons[i], email) && next.persons == db.persons)
      && (i < |db.persons| ==> forall read: string ::
            Reads(text, next.persons[i], read) ==> Reads(text, db.persons[i], read) || read == email)
      && (i == |db.persons| ==> forall read: string :: Reads(text, next.persons[i], read) ==> read == email)
  {
    var (next, i) := EnsureFounder(text, db, name, Some(email));
    forall j | 0 <= j < |db.persons| ensures Mailed(text, email)(db.persons[j]) <==> !db.persons[j].merged && Reads(text, db.persons[j], email) {
      MailedIff(text, db.persons[j], email);
    }
    if i < |db.persons| {
      MailedIff(text, db.persons[i], email);
      forall read: string ensures Reads(text, db.persons[i].(emails := db.persons[i].emails + [email]), read)
          <==> Reads(text, db.persons[i], read) || text.fold(email) == read {
        ReadsMore(text, db.persons[i], email, read);
      }
    } else {
      assert next.persons[i].emails == [email];
      assert next.persons[i].emails[0] == email;
    }
  }

  lemma EnsureFounderKeepsMail(text: TextRules, db: Db, name: string, email: Option<string>)
    requires FoldsOnce(text) && (email.Some? ==> text.fold(email.value) == email.value)
    requires OnePersonPerMail(text, db.persons)
    ensures OnePersonPerMail(text, EnsureFounder(text, db, name, email).0.persons)
  {
    var (next, i) := EnsureFounder(text, db, name, email);
    if email.None? {
      if next.persons != db.persons {
        assert next.persons == db.persons + [next.persons[|db.persons|]];
        assert next.persons[|db.persons|].emails == [];
      }
      return;
    }
    MailDecides(text, db, name, email.value);
    hide EnsureFounder, Reads, FoldsOnce;
    forall j, k, read | 0 <= j < k < |next.persons| && !next.persons[j].merged && !next.persons[k].merged
      ensures !(Reads(text, next.persons[j], read) && Reads(text, next.persons[k], read))
    {
      if i == j || i == k {
        var other := if i == j then k else j;
        if Reads(text, next.persons[i], read) && Reads(text, next.persons[other], read) {
          assert next.persons[other] == db.persons[other];
        }
      }
    }
  }

  /** Persons with the same addresses and merges, and new ones without any address. */
  ghost predicate SameMail(before: seq<Person>, after: seq<Person>) {
    && |before| <= |after|
    && (forall i :: 0 <= i < |before| ==>
          after[i].emails == before[i].emails && (!after[i].merged ==> !before[i].merged))
    && forall i :: |before| <= i < |after| ==> after[i].emails == []
  }

  lemma SameMailKeeps(text: TextRules, before: seq<Person>, after: seq<Person>)
    requires SameMail(before, after) && OnePersonPerMail(text, before)
    ensures OnePersonPerMail(text, after)
  {
    forall i, j, read | 0 <= i < j < |after| && !after[i].merged && !after[j].merged
      ensures !(Reads(text, after[i], read) && Reads(text, after[j], read))
    {
      if j < |before| {
        assert Reads(text, before[i], read) <==> Reads(text, after[i], read);
        assert Reads(text, before[j], read) <==> Reads(text, after[j], read);
      }
    }
  }

  lemma AttachSameMail(text: TextRules, db: Db, signal: nat, company: nat)
    requires signal < |db.signals|
    ensures SameMail(db.persons, AttachPerson(text, db, signal, company).0.persons)
  {
    hide FindPerson, RecordEvents, EnsureAffiliation, ScoreEventsFor, IdentityLinks;
    var data := db.signals[signal].data;
    if data.hint.Some? {
      PersonInRange(text, db.persons, data.hint.value);
      var next := EnsureSignalPerson(text, db, signal, data.hint.value).0;
      assert AttachPerson(text, db, signal, company).0.persons == next.persons;
    }
  }

  lemma ResolveSameMail(text: TextRules, db: Db, signal: nat, channel: Option<nat>)
    requires signal < |db.signals|
    ensures SameMail(db.persons, Resolve(text, db, signal, channel).0.persons)
  {
    var data := db.signals[signal].data;
    var (db1, company) := EnsureCompany(db, data.name, text.norm(data.name), SignalDomain(text, data.host));
    EnsureCompanyFrame(db, data.name, text.norm(data.name), SignalDomain(text, data.host));
    var db2 := db1.(signals := db1.signals[signal := db1.signals[signal].(company := Some(company))]);
    AttachSameMail(text, db2, signal, company);
    hide SameMail, EnsureCompany, AttachPerson, RecordChunk, RecordEdge, SignalDomain, Find;
  }

  lemma SubmitKeepsMail(text: TextRules, db: Db, s: Submission)
    requires FoldsOnce(text) && OnePersonPerMail(text, db.persons)
    ensures OnePersonPerMail(text, Submit(text, db, s).0.persons)
  {
    hide FindCompany, EnsureFounder, EnsureAffiliation, DisplayName, DomainOf, Find, OnePersonPerMail;
    var domain := if s.hasWebsite then DomainOf(text, s.host) else None;
    EnsureCompanyFrame(db, text.strip(s.companyName), text.norm(s.companyName), domain);
    var (db1, company) := EnsureCompany(db, text.strip(s.companyName), text.norm(s.companyName), domain);
    var (db2, opportunity, _) := EnsureOpportunity(db1, s.org, company, Candidates.Origin.Inbound);
    var email := if Given(s.contactEmail) then Some(text.fold(s.contactEmail.value)) else None;
    EnsureFounderKeepsMail(text, db2, DisplayName(text, s, db2.companies[company].name), email);
  }

  lemma StepKeepsMail(text: TextRules, db: Db, op: Op)
    requires FoldsOnce(text) && OnePersonPerMail(text, db.persons)
    ensures OnePersonPerMail(text, Apply(text, db, op).persons)
  {
    match op
    case Outbound(data, channel) =>
      ResolveSameMail(text, AddSignal(db, data), |db.signals|, channel);
      SameMailKeeps(text, db.persons, Apply(text, db, op).persons);
    case Again(signal, channel) =>
      if signal < |db.signals| {
        ResolveSameMail(text, db, signal, channel);
        SameMailKeeps(text, db.persons, Apply(text, db, op).persons);
      }
    case Inbound(submission) => SubmitKeepsMail(text, db, submission);
    case Manually(_, _, _) => SameMailKeeps(text, db.persons, Apply(text, db, op).persons);
    case Archiving(_) =>
    case MergePerson(_) => SameMailKeeps(text, db.persons, Apply(text, db, op).persons);
  }

  /**
    * Over every run of applications, manual entries, signals, archiving and merges no two persons that are still
    * on their own share an address, whatever the case it was typed in.
    */
  lemma {:induction false} RunsKeepMail(text: TextRules, ops: seq<Op>)
    requires FoldsOnce(text)
    ensures OnePersonPerMail(text, Run(text, EMPTY, ops).persons)
  {
    if ops != [] {
      RunsKeepMail(text, ops[..|ops| - 1]);
      StepKeepsMail(text, Run(text, EMPTY, ops[..|ops| - 1]), ops[|ops| - 1]);
    }
  }

  /**
    * An application that gives an address lands on the one person who has it: after any run there is such a
    * person, there is no other, and it founds the company of the opportunity the application landed on.
    */
  lemma ApplicantIsOnePerson(text: TextRules, ops: seq<Op>, s: Submission)
    requires FoldsOnce(text) && Given(s.contactEmail)
    requires
      var r := Submit(text, Run(text, EMPTY, ops), s).1;
      r.Ok? && !r.value.replayed
    ensures
      var (next, r) := Submit(text, Run(text, EMPTY, ops), s);
      var email := text.fold(s.contactEmail.value);
      exists p :: 0 <= p < |next.persons| && !next.persons[p].merged && Reads(text, next.persons[p], email)
        && (forall q :: 0 <= q < |next.persons| && q != p && !next.persons[q].merged ==> !Reads(text, next.persons[q], email))
        && r.value.opportunity < |next.opportunities|
        && exists a <- next.affiliations :: a.person == p && a.company == next.opportunities[r.value.opportunity].company
  {
    var db := Run(text, EMPTY, ops);
    RunsKeepMail(text, ops);
    SubmitKeepsMail(text, db, s);
    var (next, r) := Submit(text, db, s);
    var p := SubmitFounder(text, db, s);
    hide Submit, Run, Reads, FoldsOnce;
    forall q | 0 <= q < |next.persons| && q != p && !next.persons[q].merged
      ensures !Reads(text, next.persons[q], text.fold(s.contactEmail.value))
    {
    }
  }

  lemma SubmitFounder(text: TextRules, db: Db, s: Submission) returns (p: nat)
    requires FoldsOnce(text) && Given(s.contactEmail)
    requires Submit(text, db, s).1.Ok? && !Submit(text, db, s).1.value.replayed
    ensures
      var (next, r) := Submit(text, db, s);
      && p < |next.persons| && !next.persons[p].merged && Reads(text, next.persons[p], text.fold(s.contactEmail.value))
      && r.value.opportunity < |next.opportunities|
      && exists a <- next.affiliations :: a.person == p && a.company == next.opportunities[r.value.opportunity].company
  {
    hide FindCompany, EnsureFounder, EnsureAffiliation, DisplayName, DomainOf, Find, Reads;
    var domain := if s.hasWebsite then DomainOf(text, s.host) else None;
    EnsureCompanyFrame(db, text.strip(s.companyName), text.norm(s.companyName), domain);
    var (db1, company) := EnsureCompany(db, text.strip(s.companyName), text.norm(s.companyName), domain);
    var (db2, opportunity, _) := EnsureOpportunity(db1, s.org, company, Candidates.Origin.Inbound);
    var email := text.fold(s.contactEmail.value);
    var name := DisplayName(text, s, db2.companies[company].name);
    MailDecides(text, db2, name, email);
    var (db3, person) := EnsureFounder(text, db2, name, Some(email));
    EnsureFounderFrame(text, db2, name, Some(email));
    AffiliationRecorded(db3.affiliations, person, company, 0.35);
    SubmitLands(text, db, s);
    p := person;
  }
}
