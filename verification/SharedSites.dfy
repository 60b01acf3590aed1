/** Which hosts belong to a company: shared sites never do for a signal, and do for an application. */
module SharedSites {
  import opened Prelude
  import opened Candidates
  import opened CandidateRuns

  const SHARED_SITES: set<string> := {"github.com", "arxiv.org", "news.ycombinator.com"}

  /** The signal's host, folded, is a site of its company's own. */
  ghost predicate OwnSite(text: TextRules, host: Option<string>, site: string) {
    host.Some? && host.value != "" && text.fold(host.value) == site && site != "" && site !in SHARED_SITES
  }

  /** The signal has no host, or one that folds to nothing or to a shared site. */
  ghost predicate NoOwnSite(text: TextRules, host: Option<string>) {
    host in {None, Some("")} || text.fold(host.value) in SHARED_SITES + {""}
  }

  ghost predicate Owned(companies: seq<Company>, site: string) {
    exists c <- companies :: c.domain == Some(site)
  }

  ghost predicate Bears(companies: seq<Company>, normalized: string) {
    exists c <- companies :: c.normalized == normalized
  }

  // ---------------------------------------------------------------- where a signal goes

  /** A signal without a site of its own goes by its name; a company it creates owns no site. */
  lemma GoesByName(text: TextRules, db: Db, data: SignalData, channel: Option<nat>)
    requires NoOwnSite(text, data.host)
    ensures
      var (next, r) := Resolve(text, AddSignal(db, data), |db.signals|, channel);
      var normalized := text.norm(data.name);
      && r.company < |next.companies| && next.companies[r.company].normalized == normalized
      && (if Bears(db.companies, normalized) then next.companies == db.companies
          else r.company == |db.companies| && next.companies == db.companies + [Company(data.name, normalized, None)])
  {
    hide Resolve;
    ResolveCompanyIs(text, AddSignal(db, data), |db.signals|, channel);
  }

  /**
    * A signal from a site of its own goes to the company that owns the site; if there is none, to the company
    * of its name; and if there is none either, to a new company that owns the site.
    */
  lemma GoesBySite(text: TextRules, db: Db, data: SignalData, channel: Option<nat>, site: string)
    requires OwnSite(text, data.host, site)
    ensures
      var (next, r) := Resolve(text, AddSignal(db, data), |db.signals|, channel);
      var normalized := text.norm(data.name);
      if Owned(db.companies, site) then
        next.companies == db.companies && r.company < |db.companies| && db.companies[r.company].domain == Some(site)
      else if Bears(db.companies, normalized) then
        next.companies == db.companies && r.company < |db.companies| && db.companies[r.company].normalized == normalized
      else
        r.company == |db.companies| && next.companies == db.companies + [Company(data.name, normalized, Some(site))]
  {
    hide Resolve;
    ResolveCompanyIs(text, AddSignal(db, data), |db.signals|, channel);
  }

  /** Every signal is of one kind or the other. */
  lemma EitherKind(text: TextRules, host: Option<string>)
    ensures NoOwnSite(text, host) <==> !exists site :: OwnSite(text, host, site)
  {
    if !NoOwnSite(text, host) { assert OwnSite(text, host, text.fold(host.value)); }
  }

  /**
    * Two signals from shared sites, the second resolved in any later store, share a company if and only if
    * their normalised names are equal.
    */
  lemma SharedSiteSignalsMeetIff(text: TextRules, db: Db, a: SignalData, next: Db, b: SignalData, channel: Option<nat>)
    requires NoOwnSite(text, a.host) && NoOwnSite(text, b.host) && Inv(next)
    requires Resolve(text, AddSignal(db, a), |db.signals|, channel).0.companies <= next.companies
    ensures
      var first := Resolve(text, AddSignal(db, a), |db.signals|, channel).1.company;
      Resolve(text, AddSignal(next, b), |next.signals|, channel).1.company == first <==> text.norm(a.name) == text.norm(b.name)
  {
    hide Resolve, NoOwnSite, Bears;
    GoesByName(text, db, a, channel);
    GoesByName(text, next, b, channel);
    var (db1, ra) := Resolve(text, AddSignal(db, a), |db.signals|, channel);
    var (db2, rb) := Resolve(text, AddSignal(next, b), |next.signals|, channel);
    assert next.companies[ra.company] == db1.companies[ra.company];
    BearsAt(next.companies, ra.company);
    UniqueNames(next.companies);
  }

  lemma BearsAt(companies: seq<Company>, i: nat)
    requires i < |companies|
    ensures Bears(companies, companies[i].normalized)
  {
  }

  lemma UniqueNames(companies: seq<Company>)
    requires UniqueCompanies(companies)
    ensures forall i, j :: 0 <= i < |companies| && 0 <= j < |companies| && companies[i].normalized == companies[j].normalized ==> i == j
  {
  }

  ghost predicate OwnNoSharedSite(companies: seq<Company>) {
    forall c <- companies :: c.domain.Some? ==> c.domain.value !in SHARED_SITES
  }

  lemma SignalKeepsSitesOwn(text: TextRules, db: Db, signal: nat, channel: Option<nat>)
    requires signal < |db.signals| && OwnNoSharedSite(db.companies)
    ensures OwnNoSharedSite(Resolve(text, db, signal, channel).0.companies)
  {
    hide Resolve, Find;
    ResolveCompanyIs(text, db, signal, channel);
  }

  lemma StepKeepsSitesOwn(text: TextRules, db: Db, op: Op)
    requires (op.Outbound? || op.Again?) && OwnNoSharedSite(db.companies)
    ensures OwnNoSharedSite(Apply(text, db, op).companies)
  {
    hide Resolve, OwnNoSharedSite;
    match op
    case Outbound(data, channel) => SignalKeepsSitesOwn(text, AddSignal(db, data), |db.signals|, channel);
    case Again(signal, channel) => if signal < |db.signals| { SignalKeepsSitesOwn(text, db, signal, channel); }
  }

  ghost predicate SignalsOnly(ops: seq<Op>) {
    forall i :: 0 <= i < |ops| ==> ops[i].Outbound? || ops[i].Again?
  }

  /** Signals alone never make a company the owner of a shared site. */
  lemma {:induction false} SignalsOwnNoSharedSite(text: TextRules, ops: seq<Op>)
    requires SignalsOnly(ops)
    ensures OwnNoSharedSite(Run(text, EMPTY, ops).companies)
  {
    if ops != [] {
      hide Apply, OwnNoSharedSite;
      SignalsOwnNoSharedSite(text, ops[..|ops| - 1]);
      StepKeepsSitesOwn(text, Run(text, EMPTY, ops[..|ops| - 1]), ops[|ops| - 1]);
    } else {
      assert EMPTY.companies == [];
    }
  }

  // ---------------------------------------------------------------- where an application goes

  /** The application names a website with a host; shared sites are not told apart. */
  ghost predicate Site(text: TextRules, s: Submission, site: string) {
    s.hasWebsite && s.host.Some? && s.host.value != "" && text.fold(s.host.value) == site
  }

  /** A first-time application goes to the owner of its site, else to the company of its name, else to a new one. */
  lemma ApplicationGoes(text: TextRules, db: Db, s: Submission)
    requires Submit(text, db, s).1.Ok? && !Submit(text, db, s).1.value.replayed
    ensures
      var (next, receipt) := Submit(text, db, s);
      var normalized := text.norm(s.companyName);
      var o := receipt.value.opportunity;
      && o < |next.opportunities| && next.opportunities[o].company < |next.companies|
      && (forall site :: Site(text, s, site) ==>
            var company := next.opportunities[o].company;
            if Owned(db.companies, site) then
              next.companies == db.companies && db.companies[company].domain == Some(site)
            else if Bears(db.companies, normalized) then
              next.companies == db.companies && db.companies[company].normalized == normalized
            else
              company == |db.companies|
              && next.companies == db.companies + [Company(text.strip(s.companyName), normalized, Some(site))])
      && ((forall site :: !Site(text, s, site)) ==>
            next.companies[next.opportunities[o].company].normalized == normalized
            && (!Bears(db.companies, normalized) ==>
                  next.companies == db.companies + [Company(text.strip(s.companyName), normalized, None)]))
  {
    SubmitLands(text, db, s);
    hide Submit;
    if s.hasWebsite && s.host.Some? && s.host.value != "" { assert Site(text, s, text.fold(s.host.value)); }
  }

  /** Two founders whose websites are repositories on one shared site end up with one company and one opportunity. */
  lemma SharedSiteApplicationsMerge()
    ensures
      var same := (t: string) => t;
      var text := TextRules(same, same, same, same);
      var a := Submission(0, "alpha", false, Some("github.com"), true, None, None, false, None);
      var b := a.(companyName := "beta");
      var (first, receipt) := Submit(text, EMPTY, a);
      var (second, again) := Submit(text, first, b);
      && receipt.Ok? && again.Ok? && !again.value.replayed
      && again.value.opportunity == receipt.value.opportunity && |second.companies| == 1
  {
    var same := (t: string) => t;
    var text := TextRules(same, same, same, same);
    var a := Submission(0, "alpha", false, Some("github.com"), true, None, None, false, None);
    var b := a.(companyName := "beta");
    var (first, receipt) := Submit(text, EMPTY, a);
    SubmitLands(text, EMPTY, a);
    SubmitKeeps(text, EMPTY, a);
    var none: seq<Company> := [];
    assert none + [Company("alpha", "alpha", Some("github.com"))] == first.companies;
    SubmitLands(text, first, b);
    FindUnique(HasDomain("github.com"), first.companies, 0);
    FindUnique(LiveFor(0, 0), first.opportunities, receipt.value.opportunity);
  }
}
