/**
  Every run of the release and campaign operations, with update checks split into their two
  statements: the lookup that chooses an offer, and the insert that issues its ticket later.
 */
module ReleaseRuns {
  import opened Wrappers
  import V = Versions
  import opened Releases

  datatype Action =
    | Create(known: bool, product: string, version: string, buildId: string, channel: string,
             minimumSupported: Option<string>, minimumUpdater: Option<string>)
    | Register(release: Id, slot: Slot, content: Content)
    | Validate(release: Id)
    | Publish(release: Id)
    | Block(release: Id)
    | Quarantine(artifact: Id)
    | NewCampaign(known: bool, product: string, release: Id, slug: string, channel: string, ring: string,
                  emergency: bool, startsAt: Option<Time>)
    | Move(campaign: Id, status: CampaignStatus)
    | Rollout(campaign: Id, percentage: int)
    | Check(req: Request, client: Client)
    | Issue(offer: Offer)
    | Receive(owned: bool, event: Id, installation: Id, ticket: Id)

  // `pending`: offers chosen by a lookup whose tickets are not yet written.
  datatype System = System(state: Catalogue, pending: multiset<Offer>)

  const START := System(EMPTY, multiset{})

  function Administer(s: Catalogue, action: Action, now: Time): Catalogue {
    match action
    case Create(known, product, version, buildId, channel, minimum, updater) =>
      CreateRelease(s, known, product, version, buildId, channel, minimum, updater).0
    case Register(release, slot, content) => RegisterArtifact(s, release, slot, content).0
    case Validate(release) => ValidateRelease(s, release).0
    case Publish(release) => PublishRelease(s, release, now).0
    case Block(release) => BlockRelease(s, release).0
    case Quarantine(artifact) => QuarantineArtifact(s, artifact).0
    case NewCampaign(known, product, release, slug, channel, ring, emergency, startsAt) =>
      CreateCampaign(s, known, product, release, slug, channel, ring, emergency, startsAt).0
    case Move(campaign, status) => MoveCampaign(s, campaign, status).0
    case Rollout(campaign, percentage) => SetRollout(s, campaign, percentage).0
    case Receive(owned, event, installation, ticket) => RecordEvent(s, owned, event, installation, ticket, now).0
    case _ => s
  }

  function Step(sys: System, action: Action, now: Time): System {
    match action
    case Check(req, client) =>
      var choice := FirstPassing(Lookup(sys.state, req, now), client);
      if choice.None? then sys
      else sys.(pending := sys.pending + multiset{Offer(req.installation, choice.value.campaign, choice.value.release)})
    case Issue(offer) =>
      if offer !in sys.pending then sys
      else System(IssueTicket(sys.state, offer, now).0, sys.pending - multiset{offer})
    case _ => sys.(state := Administer(sys.state, action, now))
  }

  function Run(sys: System, actions: seq<(Action, Time)>): System {
    if actions == [] then sys
    else
      var n := |actions| - 1;
      Step(Run(sys, actions[..n]), actions[n].0, actions[n].1)
  }

  // --- What every run keeps -------------------------------------------------------------------------

  // An offer is for a release that has been published, by a campaign that targets it.
  predicate Grounded(s: Catalogue, offer: Offer) {
    && offer.campaign < |s.campaigns| && s.campaigns[offer.campaign].release == offer.release
    && offer.release < |s.releases| && s.releases[offer.release].publishedAt.Some?
  }

  predicate OwnsArtifact(artifacts: seq<Artifact>, release: Id) {
    exists a | a in artifacts :: a.release == release
  }

  ghost predicate ReleasesSound(s: Catalogue) {
    && (forall r: Id | r < |s.releases| && (s.releases[r].status.Validated? || s.releases[r].status.Published?) ::
          OwnsArtifact(s.artifacts, r))
    && (forall r: Id | r < |s.releases| && s.releases[r].status.Published? :: s.releases[r].publishedAt.Some?)
  }

  // A release leaves its draft with its first artifact.
  ghost predicate DraftsEmpty(s: Catalogue) {
    forall r: Id | r < |s.releases| && s.releases[r].status.Draft? :: !OwnsArtifact(s.artifacts, r)
  }

  ghost predicate ArtifactsSound(s: Catalogue) {
    forall a | a in s.artifacts ::
      a.release < |s.releases| && (a.slot.role == "updater" ==> a.content.signature.Some?)
  }

  // Every active campaign targets a published release.
  ghost predicate CampaignsSound(s: Catalogue) {
    forall c | c in s.campaigns ::
      && c.release < |s.releases| && s.releases[c.release].product == c.product
      && (c.status.Active? ==> s.releases[c.release].status.Published?)
  }

  ghost predicate UniqueReleases(rs: seq<Release>) {
    forall i, j | 0 <= i < j < |rs| ::
      rs[i].product != rs[j].product || rs[i].version != rs[j].version || rs[i].buildId != rs[j].buildId
  }

  ghost predicate UniqueArtifacts(rows: seq<Artifact>) {
    forall i, j | 0 <= i < j < |rows| :: rows[i].release != rows[j].release || rows[i].slot != rows[j].slot
  }

  ghost predicate UniqueCampaigns(cs: seq<Campaign>) {
    forall i, j | 0 <= i < j < |cs| :: cs[i].product != cs[j].product || cs[i].slug != cs[j].slug
  }

  ghost predicate UniqueTickets(s: Catalogue) {
    && (forall i, j | 0 <= i < j < |s.tickets| :: s.tickets[i].offer != s.tickets[j].offer)
    && (forall i, j | 0 <= i < j < |s.receipts| :: s.receipts[i].event != s.receipts[j].event)
  }

  ghost predicate Unambiguous(s: Catalogue) {
    UniqueReleases(s.releases) && UniqueArtifacts(s.artifacts) && UniqueCampaigns(s.campaigns) && UniqueTickets(s)
  }

  ghost predicate OffersSound(sys: System) {
    && (forall offer | offer in sys.pending :: Grounded(sys.state, offer))
    && (forall t | t in sys.state.tickets :: Grounded(sys.state, t.offer))
  }

  // A receipt speaks of what its ticket stands for.
  ghost predicate ReceiptsSound(s: Catalogue) {
    forall r | r in s.receipts ::
      r.ticket < |s.tickets| && s.tickets[r.ticket].offer == Offer(r.installation, r.campaign, r.release)
  }

  ghost predicate Sound(sys: System) {
    && ReleasesSound(sys.state) && DraftsEmpty(sys.state) && ArtifactsSound(sys.state) && CampaignsSound(sys.state)
    && Unambiguous(sys.state) && OffersSound(sys) && ReceiptsSound(sys.state)
  }

  // --- What never changes again ---------------------------------------------------------------------

  // A release keeps its identity; blocked and retired releases are final; a published release stays
  // published or is blocked, and keeps its first publication time.
  predicate ReleaseFollows(r: Release, r': Release) {
    && r'.(status := r.status, publishedAt := r.publishedAt) == r
    && (r.status.Blocked? || r.status.Retired? ==> r'.status == r.status)
    && (r.status.Published? ==> r'.status.Published? || r'.status.Blocked?)
    && (r.publishedAt.Some? ==> r'.publishedAt == r.publishedAt)
  }

  predicate CampaignFollows(c: Campaign, c': Campaign) {
    && c'.(status := c.status, percentage := c.percentage) == c
    && (c.status.Revoked? ==> c' == c)
  }

  predicate ArtifactFollows(a: Artifact, a': Artifact) {
    a'.(quarantined := a.quarantined) == a && (a.quarantined ==> a'.quarantined)
  }

  ghost predicate CatalogueFollows(s: Catalogue, s': Catalogue) {
    && |s.releases| <= |s'.releases| && |s.campaigns| <= |s'.campaigns| && |s.artifacts| <= |s'.artifacts|
    && (forall i | 0 <= i < |s.releases| :: ReleaseFollows(s.releases[i], s'.releases[i]))
    && (forall i | 0 <= i < |s.campaigns| :: CampaignFollows(s.campaigns[i], s'.campaigns[i]))
    && (forall i | 0 <= i < |s.artifacts| :: ArtifactFollows(s.artifacts[i], s'.artifacts[i]))
  }

  // No release gains an artifact once it is published, blocked or retired.
  ghost predicate ContentFrozen(s: Catalogue, s': Catalogue) {
    forall i | |s.artifacts| <= i < |s'.artifacts| ::
      s'.artifacts[i].release < |s.releases| ==> !Immutable(s.releases[s'.artifacts[i].release].status)
  }

  // Tickets keep their token and what they stand for; receipts are only added.
  ghost predicate TicketsFollow(s: Catalogue, s': Catalogue) {
    && |s.tickets| <= |s'.tickets| && (forall i | 0 <= i < |s.tickets| :: s'.tickets[i].offer == s.tickets[i].offer)
    && s.receipts <= s'.receipts
  }

  ghost predicate Follows(s: Catalogue, s': Catalogue) {
    CatalogueFollows(s, s') && ContentFrozen(s, s') && TicketsFollow(s, s')
  }

  lemma ReleasesFollow(s: Catalogue, action: Action, now: Time)
    ensures var s' := Administer(s, action, now);
            && |s.releases| <= |s'.releases|
            && forall i | 0 <= i < |s.releases| :: ReleaseFollows(s.releases[i], s'.releases[i])
  {
  }

  lemma CampaignsFollow(s: Catalogue, action: Action, now: Time)
    ensures var s' := Administer(s, action, now);
            && |s.campaigns| <= |s'.campaigns|
            && forall i | 0 <= i < |s.campaigns| :: CampaignFollows(s.campaigns[i], s'.campaigns[i])
  {
  }

  lemma ArtifactsFollow(s: Catalogue, action: Action, now: Time)
    ensures var s' := Administer(s, action, now);
            && |s.artifacts| <= |s'.artifacts|
            && forall i | 0 <= i < |s.artifacts| :: ArtifactFollows(s.artifacts[i], s'.artifacts[i])
  {
  }

  lemma StepContentFrozen(s: Catalogue, action: Action, now: Time)
    ensures ContentFrozen(s, Administer(s, action, now))
  {
  }

  lemma StepFollows(sys: System, action: Action, now: Time)
    ensures Follows(sys.state, Step(sys, action, now).state)
  {
    ReleasesFollow(sys.state, action, now);
    CampaignsFollow(sys.state, action, now);
    ArtifactsFollow(sys.state, action, now);
    StepContentFrozen(sys.state, action, now);
    StepTicketsFollow(sys, action, now);
  }

  lemma StepTicketsFollow(sys: System, action: Action, now: Time)
    ensures TicketsFollow(sys.state, Step(sys, action, now).state)
  {
  }

  lemma FollowsTransitive(a: Catalogue, b: Catalogue, c: Catalogue)
    requires Follows(a, b) && Follows(b, c)
    ensures Follows(a, c)
  {
    forall i | |a.artifacts| <= i < |c.artifacts| && c.artifacts[i].release < |a.releases|
      ensures !Immutable(a.releases[c.artifacts[i].release].status)
    {
      if i < |b.artifacts| {
        assert ArtifactFollows(b.artifacts[i], c.artifacts[i]);
      }
    }
  }

  // In every continuation blocked releases, revoked campaigns and quarantined artifacts stay so, a
  // published release keeps its contents, and tickets keep their tokens.
  lemma {:induction false} RunsFollow(sys: System, actions: seq<(Action, Time)>)
    ensures Follows(sys.state, Run(sys, actions).state)
  {
    if actions != [] {
      var n := |actions| - 1;
      RunsFollow(sys, actions[..n]);
      StepFollows(Run(sys, actions[..n]), actions[n].0, actions[n].1);
      FollowsTransitive(sys.state, Run(sys, actions[..n]).state, Run(sys, actions).state);
    }
  }

  // --- Soundness, step by step ----------------------------------------------------------------------

  lemma {:induction false} RowsMatch(s: Catalogue, req: Request, now: Time, n: nat, emergency: bool)
    requires n <= |s.campaigns|
    ensures forall c | c in Rows(s, req, now, n, emergency) ::
              Matches(s, req, now, c.campaign, c.artifact) && c == CandidateOf(s, c.campaign, c.artifact)
  {
    if n > 0 { RowsMatch(s, req, now, n - 1, emergency); }
  }

  // Whatever the lookup returns matched every condition when it ran.
  lemma LookupMatches(s: Catalogue, req: Request, now: Time)
    ensures forall c | c in Lookup(s, req, now) ::
              Matches(s, req, now, c.campaign, c.artifact) && c == CandidateOf(s, c.campaign, c.artifact)
  {
    RowsMatch(s, req, now, |s.campaigns|, true);
    RowsMatch(s, req, now, |s.campaigns|, false);
  }

  // Emergency campaigns come first, then newer ones.
  predicate Before(s: Catalogue, c: Id, d: Id)
    requires c < |s.campaigns| && d < |s.campaigns|
  {
    if s.campaigns[c].emergency != s.campaigns[d].emergency then s.campaigns[c].emergency else c > d
  }

  lemma {:induction false} RowsDescend(s: Catalogue, req: Request, now: Time, n: nat, emergency: bool)
    requires n <= |s.campaigns|
    ensures var rows := Rows(s, req, now, n, emergency);
            && (forall r | r in rows :: r.campaign < n && s.campaigns[r.campaign].emergency == emergency)
            && (forall i, j | 0 <= i < j < |rows| :: rows[i].campaign > rows[j].campaign)
  {
    if n > 0 { RowsDescend(s, req, now, n - 1, emergency); }
  }

  lemma {:induction false} RowsAreAll(s: Catalogue, req: Request, now: Time, n: nat, emergency: bool, c: Id, a: Id)
    requires c < n <= |s.campaigns| && UniqueArtifacts(s.artifacts)
    requires s.campaigns[c].emergency == emergency && Matches(s, req, now, c, a)
    ensures CandidateOf(s, c, a) in Rows(s, req, now, n, emergency)
  {
    if c < n - 1 {
      RowsAreAll(s, req, now, n - 1, emergency, c, a);
    } else {
      assert s.artifacts[a] in s.artifacts;
      assert FindArtifact(s.artifacts, s.campaigns[c].release, req.slot) == Some(a);
    }
  }

  // The lookup returns the first twenty matching campaigns, emergency ones first and newer before
  // older: a matching one is left out only when twenty that rank before it are returned.
  lemma LookupIsComplete(s: Catalogue, req: Request, now: Time)
    requires UniqueArtifacts(s.artifacts)
    ensures var rows := Lookup(s, req, now);
            && (forall r | r in rows :: r.campaign < |s.campaigns|)
            && (forall i, j | 0 <= i < j < |rows| :: Before(s, rows[i].campaign, rows[j].campaign))
            && (forall c: Id, a: Id | Matches(s, req, now, c, a) && CandidateOf(s, c, a) !in rows ::
                  |rows| == LOOKUP_LIMIT && forall r | r in rows :: Before(s, r.campaign, c))
  {
    var n := |s.campaigns|;
    RowsDescend(s, req, now, n, true);
    RowsDescend(s, req, now, n, false);
    var urgent, rest := Rows(s, req, now, n, true), Rows(s, req, now, n, false);
    var all := urgent + rest;
    forall i, j | 0 <= i < j < |all|
      ensures all[i].campaign < n && all[j].campaign < n && Before(s, all[i].campaign, all[j].campaign)
    {
      RowsAreOrdered(s, urgent, rest, i, j);
    }
    assert Lookup(s, req, now) == FirstRows(all);
    forall c: Id, a: Id | Matches(s, req, now, c, a) && CandidateOf(s, c, a) !in FirstRows(all)
      ensures |FirstRows(all)| == LOOKUP_LIMIT
      ensures forall r | r in FirstRows(all) :: r.campaign < n && Before(s, r.campaign, c)
    {
      RowsAreAll(s, req, now, n, s.campaigns[c].emergency, c, a);
      assert CandidateOf(s, c, a) in all;
      LeftOutRanksLater(s, all, c, a);
    }
  }

  lemma RowsAreOrdered(s: Catalogue, urgent: seq<Candidate>, rest: seq<Candidate>, i: nat, j: nat)
    requires i < j < |urgent + rest|
    requires forall r | r in urgent :: r.campaign < |s.campaigns| && s.campaigns[r.campaign].emergency
    requires forall r | r in rest :: r.campaign < |s.campaigns| && !s.campaigns[r.campaign].emergency
    requires forall i, j | 0 <= i < j < |urgent| :: urgent[i].campaign > urgent[j].campaign
    requires forall i, j | 0 <= i < j < |rest| :: rest[i].campaign > rest[j].campaign
    ensures var all := urgent + rest;
            && all[i].campaign < |s.campaigns| && all[j].campaign < |s.campaigns|
            && Before(s, all[i].campaign, all[j].campaign)
  {
    var all := urgent + rest;
    assert all[i] in urgent || all[i] in rest;
    assert all[j] in urgent || all[j] in rest;
  }

  lemma LeftOutRanksLater(s: Catalogue, all: seq<Candidate>, c: Id, a: Id)
    requires c < |s.campaigns| && a < |s.artifacts| && s.campaigns[c].release < |s.releases|
    requires CandidateOf(s, c, a) in all && CandidateOf(s, c, a) !in FirstRows(all)
    requires forall i, j | 0 <= i < j < |all| ::
               all[i].campaign < |s.campaigns| && all[j].campaign < |s.campaigns|
                   && Before(s, all[i].campaign, all[j].campaign)
    ensures |FirstRows(all)| == LOOKUP_LIMIT
    ensures forall r | r in FirstRows(all) :: r.campaign < |s.campaigns| && Before(s, r.campaign, c)
  {
    forall k | 0 <= k < LOOKUP_LIMIT ensures all[k] != CandidateOf(s, c, a) {
      assert all[..LOOKUP_LIMIT][k] in all[..LOOKUP_LIMIT];
    }
    var j :| 0 <= j < |all| && all[j] == CandidateOf(s, c, a);
    forall r | r in all[..LOOKUP_LIMIT] ensures r.campaign < |s.campaigns| && Before(s, r.campaign, c) {
      var i :| 0 <= i < LOOKUP_LIMIT && all[i] == r;
      assert Before(s, all[i].campaign, all[j].campaign);
    }
  }

  lemma ReleasesStaySound(s: Catalogue, action: Action, now: Time)
    requires ReleasesSound(s)
    ensures ReleasesSound(Administer(s, action, now))
  {
    var s' := Administer(s, action, now);
    forall r: Id | OwnsArtifact(s.artifacts, r) ensures OwnsArtifact(s'.artifacts, r) {
      var i: nat :| i < |s.artifacts| && s.artifacts[i].release == r;
      assert s'.artifacts[i] in s'.artifacts && s'.artifacts[i].release == r;
    }
  }

  lemma DraftsStayEmpty(s: Catalogue, action: Action, now: Time)
    requires DraftsEmpty(s) && ArtifactsSound(s)
    ensures DraftsEmpty(Administer(s, action, now))
  {
  }

  lemma ArtifactsStaySound(s: Catalogue, action: Action, now: Time)
    requires ArtifactsSound(s)
    ensures ArtifactsSound(Administer(s, action, now))
  {
  }

  lemma CampaignsStaySound(s: Catalogue, action: Action, now: Time)
    requires CampaignsSound(s)
    ensures CampaignsSound(Administer(s, action, now))
  {
  }

  lemma ReleasesStayUnique(s: Catalogue, action: Action, now: Time)
    requires UniqueReleases(s.releases)
    ensures UniqueReleases(Administer(s, action, now).releases)
  {
  }

  lemma ArtifactsStayUnique(s: Catalogue, action: Action, now: Time)
    requires UniqueArtifacts(s.artifacts)
    ensures UniqueArtifacts(Administer(s, action, now).artifacts)
  {
  }

  lemma CampaignsStayUnique(s: Catalogue, action: Action, now: Time)
    requires UniqueCampaigns(s.campaigns)
    ensures UniqueCampaigns(Administer(s, action, now).campaigns)
  {
  }

  lemma TicketsStayUnique(s: Catalogue, action: Action, now: Time)
    requires UniqueTickets(s)
    ensures UniqueTickets(Administer(s, action, now))
  {
  }

  lemma StaysUnambiguous(s: Catalogue, action: Action, now: Time)
    requires Unambiguous(s)
    ensures Unambiguous(Administer(s, action, now))
  {
    ReleasesStayUnique(s, action, now);
    ArtifactsStayUnique(s, action, now);
    CampaignsStayUnique(s, action, now);
    TicketsStayUnique(s, action, now);
  }

  lemma FollowsKeepsGrounded(s: Catalogue, s': Catalogue, offer: Offer)
    requires CatalogueFollows(s, s') && Grounded(s, offer)
    ensures Grounded(s', offer)
  {
    assert CampaignFollows(s.campaigns[offer.campaign], s'.campaigns[offer.campaign]);
    assert ReleaseFollows(s.releases[offer.release], s'.releases[offer.release]);
  }

  lemma IssueStaysUnambiguous(s: Catalogue, offer: Offer, now: Time)
    requires Unambiguous(s)
    ensures Unambiguous(IssueTicket(s, offer, now).0)
  {
  }

  lemma TablesStaySound(sys: System, action: Action, now: Time)
    requires Sound(sys)
    ensures var s := Step(sys, action, now).state;
            ReleasesSound(s) && DraftsEmpty(s) && ArtifactsSound(s) && CampaignsSound(s) && Unambiguous(s)
  {
    if action.Issue? {
      IssueStaysUnambiguous(sys.state, action.offer, now);
    } else if !action.Check? {
      ReleasesStaySound(sys.state, action, now);
      DraftsStayEmpty(sys.state, action, now);
      ArtifactsStaySound(sys.state, action, now);
      CampaignsStaySound(sys.state, action, now);
      StaysUnambiguous(sys.state, action, now);
    }
  }

  // A chosen offer is grounded when it is chosen.
  lemma ChoiceIsGrounded(s: Catalogue, req: Request, client: Client, now: Time)
    requires ReleasesSound(s)
    ensures var choice := FirstPassing(Lookup(s, req, now), client);
            choice.Some? ==> Grounded(s, Offer(req.installation, choice.value.campaign, choice.value.release))
  {
    LookupMatches(s, req, now);
  }

  // A step leaves the offers alone, or adds one that is grounded.
  lemma PendingComesGrounded(sys: System, action: Action, now: Time)
    requires OffersSound(sys) && ReleasesSound(sys.state)
    ensures forall offer | offer in Step(sys, action, now).pending :: Grounded(sys.state, offer)
  {
    if action.Check? {
      ChoiceIsGrounded(sys.state, action.req, action.client, now);
    }
  }

  // A ticket is written for a pending offer only.
  lemma TicketsComeGrounded(sys: System, action: Action, now: Time)
    requires OffersSound(sys)
    ensures forall t | t in Step(sys, action, now).state.tickets :: Grounded(sys.state, t.offer)
  {
    if !action.Issue? && !action.Check? {
      AdministerWritesNoTicket(sys.state, action, now);
    }
  }

  lemma OffersStaySound(sys: System, action: Action, now: Time)
    requires OffersSound(sys) && ReleasesSound(sys.state)
    ensures OffersSound(Step(sys, action, now))
  {
    var s, sys' := sys.state, Step(sys, action, now);
    PendingComesGrounded(sys, action, now);
    TicketsComeGrounded(sys, action, now);
    StepFollows(sys, action, now);
    forall offer | Grounded(s, offer) ensures Grounded(sys'.state, offer) {
      FollowsKeepsGrounded(s, sys'.state, offer);
    }
  }

  lemma ReceiptsStaySound(sys: System, action: Action, now: Time)
    requires ReceiptsSound(sys.state)
    ensures ReceiptsSound(Step(sys, action, now).state)
  {
    StepTicketsFollow(sys, action, now);
  }

  lemma StepKeepsSound(sys: System, action: Action, now: Time)
    requires Sound(sys)
    ensures Sound(Step(sys, action, now))
  {
    TablesStaySound(sys, action, now);
    OffersStaySound(sys, action, now);
    ReceiptsStaySound(sys, action, now);
  }

  lemma {:induction false} EveryRunIsSound(actions: seq<(Action, Time)>)
    ensures Sound(Run(START, actions))
  {
    if actions != [] {
      var n := |actions| - 1;
      EveryRunIsSound(actions[..n]);
      StepKeepsSound(Run(START, actions[..n]), actions[n].0, actions[n].1);
    }
  }

  // --- Tickets after a block ------------------------------------------------------------------------

  // No lookup offers a blocked release, a revoked or paused campaign, or a quarantined artifact.
  lemma LookupFailsClosed(s: Catalogue, req: Request, now: Time, c: Candidate)
    requires c in Lookup(s, req, now)
    ensures c.release < |s.releases| && s.releases[c.release].status.Published?
    ensures c.campaign < |s.campaigns| && s.campaigns[c.campaign].status.Active?
    ensures c.artifact < |s.artifacts| && !s.artifacts[c.artifact].quarantined
        && s.artifacts[c.artifact].release == c.release
  {
    LookupMatches(s, req, now);
  }

  // The final state has a ticket for the release that is new or was extended since.
  predicate TicketWritten(s: Catalogue, s': Catalogue, release: Id) {
    exists t: Id | t < |s'.tickets| ::
      s'.tickets[t].offer.release == release && (t >= |s.tickets| || s'.tickets[t] != s.tickets[t])
  }

  predicate OfferPending(sys: System, release: Id) {
    exists offer | offer in sys.pending :: offer.release == release
  }

  lemma StepWritesNoTicket(sys: System, action: Action, now: Time, release: Id)
    requires release < |sys.state.releases| && sys.state.releases[release].status.Blocked?
    requires !OfferPending(sys, release)
    ensures !OfferPending(Step(sys, action, now), release)
    ensures !TicketWritten(sys.state, Step(sys, action, now).state, release)
  {
    match action {
      case Check(req, client) => LookupFindsOther(sys.state, req, client, now, release);
      case Issue(offer) => if offer in sys.pending { IssueWritesOwn(sys.state, offer, now, release); }
      case _ => AdministerWritesNoTicket(sys.state, action, now);
    }
  }

  lemma LookupFindsOther(s: Catalogue, req: Request, client: Client, now: Time, release: Id)
    requires release < |s.releases| && s.releases[release].status.Blocked?
    ensures var choice := FirstPassing(Lookup(s, req, now), client);
            choice.Some? ==> choice.value.release != release
  {
    LookupMatches(s, req, now);
  }

  lemma IssueWritesOwn(s: Catalogue, offer: Offer, now: Time, release: Id)
    requires offer.release != release
    ensures !TicketWritten(s, IssueTicket(s, offer, now).0, release)
  {
  }

  lemma AdministerWritesNoTicket(s: Catalogue, action: Action, now: Time)
    ensures Administer(s, action, now).tickets == s.tickets
  {
  }

  lemma {:induction false} NothingWithoutPendingOffer(sys: System, actions: seq<(Action, Time)>, release: Id)
    requires release < |sys.state.releases| && sys.state.releases[release].status.Blocked?
    requires !OfferPending(sys, release)
    ensures !OfferPending(Run(sys, actions), release)
    ensures !TicketWritten(sys.state, Run(sys, actions).state, release)
  {
    if actions != [] {
      var n := |actions| - 1;
      var before := Run(sys, actions[..n]);
      NothingWithoutPendingOffer(sys, actions[..n], release);
      RunsFollow(sys, actions[..n]);
      assert ReleaseFollows(sys.state.releases[release], before.state.releases[release]);
      StepWritesNoTicket(before, actions[n].0, actions[n].1, release);
      StepTicketsFollow(before, actions[n].0, actions[n].1);
      NoTicketTwice(sys.state, before.state, Run(sys, actions).state, release);
    }
  }

  lemma NoTicketTwice(a: Catalogue, b: Catalogue, c: Catalogue, release: Id)
    requires !TicketWritten(a, b, release) && !TicketWritten(b, c, release) && TicketsFollow(b, c)
    ensures !TicketWritten(a, c, release)
  {
    forall t: Id | t < |c.tickets| && c.tickets[t].offer.release == release
      ensures t < |a.tickets| && c.tickets[t] == a.tickets[t]
    {
      assert t < |b.tickets| && c.tickets[t] == b.tickets[t];
    }
  }

  // Once a release is blocked a ticket for it can still be written exactly when a lookup had chosen
  // it before the block and its ticket was not yet issued.
  lemma TicketAfterBlock(sys: System, release: Id)
    requires release < |sys.state.releases| && sys.state.releases[release].status.Blocked?
    ensures (exists actions :: RunWrites(sys, actions, release)) <==> OfferPending(sys, release)
  {
    if OfferPending(sys, release) {
      var actions := PendingOfferWrites(sys, release);
    } else {
      forall actions ensures !RunWrites(sys, actions, release) {
        NothingWithoutPendingOffer(sys, actions, release);
      }
    }
  }

  // The run writes or extends a ticket for the release.
  predicate RunWrites(sys: System, actions: seq<(Action, Time)>, release: Id) {
    TicketWritten(sys.state, Run(sys, actions).state, release)
  }

  lemma PendingOfferWrites(sys: System, release: Id) returns (actions: seq<(Action, Time)>)
    requires OfferPending(sys, release)
    ensures RunWrites(sys, actions, release)
  {
    var offer :| offer in sys.pending && offer.release == release;
    var ticket := FindTicket(sys.state.tickets, offer);
    var now := if ticket.Some? then sys.state.tickets[ticket.value].issuedAt + 1 else 0;
    actions := [(Issue(offer), now)];
    assert actions[..0] == [];
    assert Run(sys, actions) == Step(sys, Issue(offer), now);
    var t := IssueTicket(sys.state, offer, now).1;
    assert Run(sys, actions).state.tickets[t].offer.release == release;
  }

  lemma RunAppend(sys: System, actions: seq<(Action, Time)>, action: Action, now: Time)
    ensures Run(sys, actions + [(action, now)]) == Step(Run(sys, actions), action, now)
  {
    assert (actions + [(action, now)])[..|actions|] == actions;
  }

  const UPDATER := Slot("linux", "x86_64", "deb", "updater")
  const NEW_VERSION := V.Render([1])
  const OLD_VERSION := V.Render([0])
  const CONTENT := Content("key", 1, "sum", Some("signature"), None, "signed")
  const RELEASE := Release("authorforge", NEW_VERSION, "build", "stable", None, None, Published, Some(4))
  const CAMPAIGN := Campaign("authorforge", 0, "slug", "stable", "ring", false, None, 100, Active)

  // A release is published and rolled out to everyone in seven operations.
  function RolloutAction(n: nat): Action
    requires n < 7
  {
    match n
    case 0 => Create(true, "authorforge", NEW_VERSION, "build", "stable", None, None)
    case 1 => Register(0, UPDATER, CONTENT)
    case 2 => Validate(0)
    case 3 => Publish(0)
    case 4 => NewCampaign(true, "authorforge", 0, "slug", "stable", "ring", false, None)
    case 5 => Rollout(0, 100)
    case _ => Move(0, Active)
  }

  function RolledOut(n: nat): Catalogue
    requires n <= 7
  {
    var artifacts := if n < 2 then [] else [Artifact(0, UPDATER, CONTENT, false)];
    match n
    case 0 => EMPTY
    case 1 => Catalogue([RELEASE.(status := Draft, publishedAt := None)], artifacts, [], [], [])
    case 2 => Catalogue([RELEASE.(status := ArtifactsPending, publishedAt := None)], artifacts, [], [], [])
    case 3 => Catalogue([RELEASE.(status := Validated, publishedAt := None)], artifacts, [], [], [])
    case 4 => Catalogue([RELEASE], artifacts, [], [], [])
    case 5 => Catalogue([RELEASE], artifacts, [CAMPAIGN.(percentage := 0, status := CampaignDraft)], [], [])
    case 6 => Catalogue([RELEASE], artifacts, [CAMPAIGN.(status := CampaignDraft)], [], [])
    case _ => Catalogue([RELEASE], artifacts, [CAMPAIGN], [], [])
  }

  lemma RolloutStep(n: nat)
    requires n < 7
    ensures Step(System(RolledOut(n), multiset{}), RolloutAction(n), n + 1) == System(RolledOut(n + 1), multiset{})
  {
    if n == 2 {
      assert Artifact(0, UPDATER, CONTENT, false) in RolledOut(2).artifacts;
    }
  }

  function RolloutActions(n: nat): seq<(Action, Time)>
    requires n <= 7
  {
    if n == 0 then [] else RolloutActions(n - 1) + [(RolloutAction(n - 1), n)]
  }

  lemma NextStep(actions: seq<(Action, Time)>, action: Action, now: Time, before: System, after: System)
    requires Run(START, actions) == before && Step(before, action, now) == after
    ensures Run(START, actions + [(action, now)]) == after
  {
    RunAppend(START, actions, action, now);
  }

  lemma {:induction false} RolledOutIsReachable(n: nat)
    requires n <= 7
    ensures Run(START, RolloutActions(n)) == System(RolledOut(n), multiset{})
  {
    if n > 0 {
      RolledOutIsReachable(n - 1);
      RolloutStep(n - 1);
      NextStep(RolloutActions(n - 1), RolloutAction(n - 1), n, System(RolledOut(n - 1), multiset{}),
               System(RolledOut(n), multiset{}));
    }
  }

  lemma ReachRolledOut() returns (rollout: seq<(Action, Time)>)
    ensures Run(START, rollout) == System(RolledOut(7), multiset{})
  {
    rollout := RolloutActions(7);
    RolledOutIsReachable(7);
  }

  predicate WritesForBlocked(sys: System, offer: Offer, now: Time) {
    && offer.release < |sys.state.releases| && sys.state.releases[offer.release].status.Blocked?
    && TicketWritten(sys.state, Step(sys, Issue(offer), now).state, offer.release)
  }

  // After the actions the offer's release is blocked, and the next one writes its ticket.
  predicate TicketFollowsBlock(actions: seq<(Action, Time)>, offer: Offer, now: Time) {
    WritesForBlocked(Run(START, actions), offer, now)
  }

  // Blocking a release does not stop a ticket whose lookup ran first: a check chooses the release,
  // the release is blocked, and only then is its ticket issued.
  lemma TicketCanFollowBlock(now: Time)
    ensures exists actions, offer :: TicketFollowsBlock(actions, offer, now)
  {
    var rollout := ReachRolledOut();
    var check := ChoosingCheck();
    CheckBlockIssue(rollout, check, now);
  }

  lemma ChoosingCheck() returns (check: Action)
    ensures Step(System(RolledOut(7), multiset{}), check, 8) == System(RolledOut(7), multiset{Offer(7, 0, 0)})
  {
    var req := Request(7, "authorforge", UPDATER, true, {("stable", "ring")}, {});
    var client :| client == Client(7, OLD_VERSION, None, None, (c: Id) => 0);
    check := Check(req, client);
    CheckChooses(RolledOut(7), req, client);
  }

  lemma CheckBlockIssue(rollout: seq<(Action, Time)>, check: Action, now: Time)
    requires Step(Run(START, rollout), check, 8) == System(RolledOut(7), multiset{Offer(7, 0, 0)})
    ensures TicketFollowsBlock(rollout + [(check, 8)] + [(Block(0), 9)], Offer(7, 0, 0), now)
  {
    var checked := rollout + [(check, 8)];
    var actions := checked + [(Block(0), 9)];
    RunAppend(START, rollout, check, 8);
    RunAppend(START, checked, Block(0), 9);
    BlockedThenIssued(Run(START, actions), now);
  }

  lemma BlockedThenIssued(sys: System, now: Time)
    requires sys == Step(System(RolledOut(7), multiset{Offer(7, 0, 0)}), Block(0), 9)
    ensures WritesForBlocked(sys, Offer(7, 0, 0), now)
  {
    assert Step(sys, Issue(Offer(7, 0, 0)), now).state.tickets[0].offer.release == 0;
  }

  lemma CheckChooses(s: Catalogue, req: Request, client: Client)
    requires s == RolledOut(7)
    requires req == Request(7, "authorforge", UPDATER, true, {("stable", "ring")}, {})
    requires client.currentVersion == OLD_VERSION && client.currentBuild.None?
    ensures Step(System(s, multiset{}), Check(req, client), 8) == System(s, multiset{Offer(7, 0, 0)})
  {
    LookupFinds(s, req);
    CandidatePasses(s, client);
    OnlyChoice(System(s, multiset{}), req, client, 8, CandidateOf(s, 0, 0));
    assert multiset{} + multiset{Offer(7, 0, 0)} == multiset{Offer(7, 0, 0)};
  }

  lemma OnlyChoice(sys: System, req: Request, client: Client, now: Time, c: Candidate)
    requires Lookup(sys.state, req, now) == [c] && Passes(c, client)
    ensures Step(sys, Check(req, client), now)
         == sys.(pending := sys.pending + multiset{Offer(req.installation, c.campaign, c.release)})
  {
  }

  lemma LookupFinds(s: Catalogue, req: Request)
    requires s == RolledOut(7)
    requires req == Request(7, "authorforge", UPDATER, true, {("stable", "ring")}, {})
    ensures Lookup(s, req, 8) == [CandidateOf(s, 0, 0)]
  {
    assert Rows(s, req, 8, 1, true) == [];
    assert Rows(s, req, 8, 1, false) == [CandidateOf(s, 0, 0)];
  }

  lemma CandidatePasses(s: Catalogue, client: Client)
    requires s == RolledOut(7)
    requires client.currentVersion == OLD_VERSION && client.currentBuild.None?
    ensures Passes(CandidateOf(s, 0, 0), client)
  {
    OneIsNewer();
  }

  lemma OneIsNewer()
    ensures V.VersionGreater(NEW_VERSION, OLD_VERSION)
  {
    V.RoundTrip([1], "");
    V.RoundTrip([0], "");
    assert NEW_VERSION + "" == NEW_VERSION && OLD_VERSION + "" == OLD_VERSION;
    assert V.CompareFrom([1], [0], 0).Greater?;
  }

  // --- Rollout --------------------------------------------------------------------------------------

  // Raising the percentage of a campaign never drops an installation from its rollout.
  lemma RaisingKeepsOffers(c: Candidate, client: Client, percentage: int)
    requires Passes(c, client) && c.percentage <= percentage
    ensures Passes(c.(percentage := percentage), client)
  {
  }

  function Buckets(n: nat): set<nat> {
    if n == 0 then {} else Buckets(n - 1) + {n - 1}
  }

  lemma {:induction false} BucketsBelow(n: nat)
    ensures |Buckets(n)| == n && forall b: nat :: b in Buckets(n) <==> b < n
  {
    if n > 0 { BucketsBelow(n - 1); }
  }

  // Of the ten thousand buckets a rollout of p percent takes exactly p hundred.
  lemma RolloutShare(percentage: int)
    ensures |set b | b in Buckets(10_000) && InRollout(b, percentage)|
         == if percentage <= 0 then 0 else if percentage >= 100 then 10_000 else percentage * 100
  {
    var share: nat := if percentage <= 0 then 0 else if percentage >= 100 then 10_000 else percentage * 100;
    BucketsBelow(10_000);
    BucketsBelow(share);
    assert (set b | b in Buckets(10_000) && InRollout(b, percentage)) == Buckets(share);
  }

  // --- Clients that install what they are offered ---------------------------------------------------

  datatype Install = Install(client: Client, candidate: Candidate)

  // Each check passed its gates, and its version is what the client ran at the next check.
  ghost predicate Installs(history: seq<Install>) {
    && (forall i | 0 <= i < |history| :: Passes(history[i].candidate, history[i].client))
    && forall i | 0 <= i < |history| - 1 :: history[i + 1].client.currentVersion == history[i].candidate.version
  }

  // Whatever operators publish, block, pause or roll out between the checks, no version it ran
  // before is ever offered to it again.
  lemma {:induction false} InstallsOnlyClimb(history: seq<Install>, i: nat, j: nat)
    requires Installs(history) && i <= j < |history|
    ensures V.VersionGreater(history[j].candidate.version, history[i].client.currentVersion)
    ensures history[j].candidate.version != history[i].client.currentVersion
    decreases j - i
  {
    PassesClimbs(history[j]);
    if i < j {
      InstallsOnlyClimb(history, i, j - 1);
      assert history[j - 1 + 1].client.currentVersion == history[j - 1].candidate.version;
      V.GreaterIsTransitive(history[j].candidate.version, history[j].client.currentVersion,
                            history[i].client.currentVersion);
    }
    V.GreaterIsDifferent(history[j].candidate.version, history[i].client.currentVersion);
  }

  lemma PassesClimbs(install: Install)
    requires Passes(install.candidate, install.client)
    ensures V.VersionGreater(install.candidate.version, install.client.currentVersion)
  {
  }
}
