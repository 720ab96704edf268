/** Releases, their artifacts, the campaigns that roll them out, and the tickets and receipts of updates. */
module Releases {
  import opened Wrappers
  import V = Versions

  type Id = nat
  type Time = nat

  const LOOKUP_LIMIT: nat := 20
  const TICKET_SECONDS: nat := 3600

  datatype ReleaseStatus = Draft | ArtifactsPending | Validated | Published | Blocked | Retired

  datatype Release = Release(product: string, version: string, buildId: string, channel: string,
                             minimumSupported: Option<string>, minimumUpdater: Option<string>,
                             status: ReleaseStatus, publishedAt: Option<Time>)

  datatype Slot = Slot(platform: string, architecture: string, packageFormat: string, role: string)

  datatype Content = Content(storageKey: string, sizeBytes: nat, sha256: string, signature: Option<string>,
                             signingKey: Option<string>, osSignature: string)

  datatype Artifact = Artifact(release: Id, slot: Slot, content: Content, quarantined: bool)

  datatype CampaignStatus = CampaignDraft | Active | Paused | Revoked

  datatype Campaign = Campaign(product: string, release: Id, slug: string, channel: string, ring: string,
                               emergency: bool, startsAt: Option<Time>, percentage: int, status: CampaignStatus)

  datatype Offer = Offer(installation: Id, campaign: Id, release: Id)

  datatype Ticket = Ticket(offer: Offer, issuedAt: Time, expiresAt: Time)

  datatype Receipt = Receipt(event: Id, installation: Id, campaign: Id, release: Id, ticket: Id)

  datatype Catalogue = Catalogue(releases: seq<Release>, artifacts: seq<Artifact>, campaigns: seq<Campaign>,
                                 tickets: seq<Ticket>, receipts: seq<Receipt>)

  const EMPTY := Catalogue([], [], [], [], [])

  datatype ReleaseError = ProductNotFound | ReleaseNotFound | CampaignNotFound | ArtifactNotFound | InvalidState
      | InvalidTicket

  datatype Outcome = Done(id: Id) | Refused(error: ReleaseError)

  // --- Releases and artifacts -----------------------------------------------------------------------

  function FindRelease(rs: seq<Release>, product: string, version: string, buildId: string): (id: Option<Id>)
    ensures id.Some? ==> id.value < |rs| && rs[id.value].product == product
                         && rs[id.value].version == version && rs[id.value].buildId == buildId
    ensures id.None? ==> forall r | r in rs :: !(r.product == product && r.version == version && r.buildId == buildId)
  {
    if rs == [] then None
    else
      var n := |rs| - 1;
      if rs[n].product == product && rs[n].version == version && rs[n].buildId == buildId then Some(n)
      else FindRelease(rs[..n], product, version, buildId)
  }

  function FindArtifact(rows: seq<Artifact>, release: Id, slot: Slot): (id: Option<Id>)
    ensures id.Some? ==> id.value < |rows| && rows[id.value].release == release && rows[id.value].slot == slot
    ensures id.None? ==> forall a | a in rows :: !(a.release == release && a.slot == slot)
  {
    if rows == [] then None
    else
      var n := |rows| - 1;
      if rows[n].release == release && rows[n].slot == slot then Some(n) else FindArtifact(rows[..n], release, slot)
  }

  // `known`: the product is active and has the channel.
  function CreateRelease(s: Catalogue, known: bool, product: string, version: string, buildId: string, channel: string,
                         minimumSupported: Option<string>, minimumUpdater: Option<string>): (Catalogue, Outcome) {
    if !known then (s, Refused(ProductNotFound))
    else
      match FindRelease(s.releases, product, version, buildId)
      case None =>
        var row := Release(product, version, buildId, channel, minimumSupported, minimumUpdater, Draft, None);
        (s.(releases := s.releases + [row]), Done(|s.releases|))
      case Some(id) =>
        if s.releases[id].channel != channel then (s, Refused(InvalidState)) else (s, Done(id))
  }

  predicate Immutable(status: ReleaseStatus) {
    status.Published? || status.Blocked? || status.Retired?
  }

  function SetStatus(s: Catalogue, id: Id, status: ReleaseStatus): Catalogue
    requires id < |s.releases|
  {
    s.(releases := s.releases[id := s.releases[id].(status := status)])
  }

  function RegisterArtifact(s: Catalogue, release: Id, slot: Slot, content: Content): (Catalogue, Outcome) {
    if slot.role == "updater" && content.signature.None? then (s, Refused(InvalidState))
    else if release >= |s.releases| then (s, Refused(ReleaseNotFound))
    else if Immutable(s.releases[release].status) then (s, Refused(InvalidState))
    else
      match FindArtifact(s.artifacts, release, slot)
      case None =>
        var with := s.(artifacts := s.artifacts + [Artifact(release, slot, content, false)]);
        (if s.releases[release].status.Draft? then SetStatus(with, release, ArtifactsPending)
         else with, Done(|s.artifacts|))
      case Some(id) =>
        if s.artifacts[id].content == content then (s, Done(id)) else (s, Refused(InvalidState))
  }

  predicate HasValidatedArtifact(artifacts: seq<Artifact>, release: Id) {
    exists a | a in artifacts :: a.release == release && !a.quarantined
  }

  function ValidateRelease(s: Catalogue, id: Id): (Catalogue, Outcome) {
    if id >= |s.releases| then (s, Refused(ReleaseNotFound))
    else
      var status := s.releases[id].status;
      if status.Blocked? || status.Retired? then (s, Refused(InvalidState))
      else if status.Validated? || status.Published? then (s, Done(id))
      else if !HasValidatedArtifact(s.artifacts, id) then (s, Refused(InvalidState))
      else (SetStatus(s, id, Validated), Done(id))
  }

  function PublishRelease(s: Catalogue, id: Id, now: Time): (Catalogue, Outcome) {
    if id >= |s.releases| then (s, Refused(ReleaseNotFound))
    else
      match s.releases[id].status
      case Published => (s, Done(id))
      case Validated =>
        var at := if s.releases[id].publishedAt.Some? then s.releases[id].publishedAt else Some(now);
        (s.(releases := s.releases[id := s.releases[id].(status := Published, publishedAt := at)]), Done(id))
      case _ => (s, Refused(InvalidState))
  }

  // Active campaigns for the release are paused.
  function PauseCampaigns(campaigns: seq<Campaign>, release: Id): (paused: seq<Campaign>)
    ensures |paused| == |campaigns|
  {
    seq(|campaigns|, i requires 0 <= i < |campaigns| =>
      if campaigns[i].release == release && campaigns[i].status.Active? then campaigns[i].(status := Paused)
          else campaigns[i])
  }

  function BlockRelease(s: Catalogue, id: Id): (Catalogue, Outcome) {
    if id >= |s.releases| then (s, Refused(ReleaseNotFound))
    else if s.releases[id].status.Blocked? then (s, Done(id))
    else if s.releases[id].status.Retired? then (s, Refused(InvalidState))
    else (SetStatus(s, id, Blocked).(campaigns := PauseCampaigns(s.campaigns, id)), Done(id))
  }

  function QuarantineArtifact(s: Catalogue, id: Id): (Catalogue, Outcome) {
    if id >= |s.artifacts| then (s, Refused(ArtifactNotFound))
    else
      (s.(artifacts := s.artifacts[id := s.artifacts[id].(quarantined := true)],
          campaigns := PauseCampaigns(s.campaigns, s.artifacts[id].release)), Done(id))
  }

  // --- Campaigns ------------------------------------------------------------------------------------

  function FindCampaign(cs: seq<Campaign>, product: string, slug: string): (id: Option<Id>)
    ensures id.Some? ==> id.value < |cs| && cs[id.value].product == product && cs[id.value].slug == slug
    ensures id.None? ==> forall c | c in cs :: !(c.product == product && c.slug == slug)
  {
    if cs == [] then None
    else
      var n := |cs| - 1;
      if cs[n].product == product && cs[n].slug == slug then Some(n) else FindCampaign(cs[..n], product, slug)
  }

  function CreateCampaign(s: Catalogue, known: bool, product: string, release: Id, slug: string, channel: string,
                          ring: string, emergency: bool, startsAt: Option<Time>): (Catalogue, Outcome) {
    if !known then (s, Refused(ProductNotFound))
    else if release >= |s.releases| then (s, Refused(ReleaseNotFound))
    else if s.releases[release].product != product then (s, Refused(InvalidState))
    else if s.releases[release].status.Blocked? || s.releases[release].status.Retired? then (s, Refused(InvalidState))
    else
      match FindCampaign(s.campaigns, product, slug)
      case None =>
        var row := Campaign(product, release, slug, channel, ring, emergency, startsAt, 0, CampaignDraft);
        (s.(campaigns := s.campaigns + [row]), Done(|s.campaigns|))
      case Some(id) => (s, Done(id))
  }

  predicate TargetsPublished(s: Catalogue, c: Campaign) {
    c.release < |s.releases| && s.releases[c.release].status.Published?
  }

  function MoveCampaign(s: Catalogue, id: Id, status: CampaignStatus): (Catalogue, Outcome) {
    if id >= |s.campaigns| then (s, Refused(CampaignNotFound))
    else
      var c := s.campaigns[id];
      if c.status == status then (s, Done(id))
      else if status.Active? && !TargetsPublished(s, c) then (s, Refused(InvalidState))
      else if c.status.Revoked? then (s, Refused(InvalidState))
      else (s.(campaigns := s.campaigns[id := c.(status := status)]), Done(id))
  }

  function SetRollout(s: Catalogue, id: Id, percentage: int): (Catalogue, Outcome) {
    if id >= |s.campaigns| then (s, Refused(CampaignNotFound))
    else if s.campaigns[id].status.Revoked? then (s, Refused(InvalidState))
    else (s.(campaigns := s.campaigns[id := s.campaigns[id].(percentage := percentage)]), Done(id))
  }

  // --- Looking up an update -------------------------------------------------------------------------

  // What an installation asks for; `eligible`, `applications` (channel and ring) and `held` are what
  // its installation, fleet and product rows say.
  datatype Request = Request(installation: Id, product: string, slot: Slot, eligible: bool,
                             applications: set<(string, string)>, held: set<Id>)

  datatype Candidate = Candidate(campaign: Id, artifact: Id, release: Id, version: string, buildId: string,
                                 publishedAt: Option<Time>, minimumSupported: Option<string>,
                                 minimumUpdater: Option<string>, signature: Option<string>, percentage: int)

  // The joins and filters of the candidate query.
  predicate Matches(s: Catalogue, req: Request, now: Time, c: Id, a: Id) {
    && c < |s.campaigns| && a < |s.artifacts|
    && var campaign, artifact := s.campaigns[c], s.artifacts[a];
    && campaign.release < |s.releases| && artifact.release == campaign.release
    && var release := s.releases[campaign.release];
    && req.eligible
    && campaign.product == req.product && (campaign.channel, campaign.ring) in req.applications
    && release.product == req.product && release.channel == campaign.channel
    && campaign.status.Active? && (campaign.startsAt.Some? ==> campaign.startsAt.value <= now)
    && release.status.Published?
    && !artifact.quarantined && artifact.slot == req.slot && req.slot.role == "updater"
    && c !in req.held
  }

  function CandidateOf(s: Catalogue, c: Id, a: Id): Candidate
    requires c < |s.campaigns| && s.campaigns[c].release < |s.releases| && a < |s.artifacts|
  {
    var campaign := s.campaigns[c];
    var release := s.releases[campaign.release];
    Candidate(c, a, campaign.release, release.version, release.buildId, release.publishedAt,
              release.minimumSupported, release.minimumUpdater, s.artifacts[a].content.signature, campaign.percentage)
  }

  // Matching rows of the first `n` campaigns, newest first; a release has one artifact per slot.
  function Rows(s: Catalogue, req: Request, now: Time, n: nat, emergency: bool): seq<Candidate>
    requires n <= |s.campaigns|
  {
    if n == 0 then []
    else
      var c := n - 1;
      var a := FindArtifact(s.artifacts, s.campaigns[c].release, req.slot);
      (if s.campaigns[c].emergency == emergency && a.Some? && Matches(s, req, now, c, a.value)
       then [CandidateOf(s, c, a.value)] else [])
      + Rows(s, req, now, n - 1, emergency)
  }

  function FirstRows(rows: seq<Candidate>): seq<Candidate> {
    if |rows| <= LOOKUP_LIMIT then rows else rows[..LOOKUP_LIMIT]
  }

  function Lookup(s: Catalogue, req: Request, now: Time): seq<Candidate> {
    FirstRows(Rows(s, req, now, |s.campaigns|, true) + Rows(s, req, now, |s.campaigns|, false))
  }

  // --- Choosing an offer ----------------------------------------------------------------------------

  datatype Client = Client(installation: Id, currentVersion: string, currentBuild: Option<string>,
                           updaterVersion: Option<string>, digest: Id -> nat)

  function Bucket(client: Client, campaign: Id): (b: nat)
    ensures b < 10_000
  {
    client.digest(campaign) % 10_000
  }

  predicate InRollout(bucket: nat, percentage: int) {
    if percentage <= 0 then false
    else if percentage >= 100 then true
    else bucket < percentage * 100
  }

  predicate RolloutAllows(client: Client, campaign: Id, percentage: int) {
    InRollout(Bucket(client, campaign), percentage)
  }

  predicate Passes(candidate: Candidate, client: Client) {
    && candidate.signature.Some? && V.TrimEnd(V.TrimStart(candidate.signature.value)) != ""
    && candidate.publishedAt.Some?
    && V.VersionGreater(candidate.version, client.currentVersion)
    && (candidate.minimumSupported.Some? ==> V.VersionAtLeast(client.currentVersion, candidate.minimumSupported.value))
    && (candidate.minimumUpdater.Some? ==>
          client.updaterVersion.Some? && V.VersionAtLeast(client.updaterVersion.value, candidate.minimumUpdater.value))
    && client.currentBuild != Some(candidate.buildId)
    && RolloutAllows(client, candidate.campaign, candidate.percentage)
  }

  function FirstPassing(candidates: seq<Candidate>, client: Client): (choice: Option<Candidate>)
    ensures choice.Some? ==> choice.value in candidates && Passes(choice.value, client)
    ensures choice.None? ==> forall c | c in candidates :: !Passes(c, client)
  {
    if candidates == [] then None
    else if Passes(candidates[0], client) then Some(candidates[0])
    else FirstPassing(candidates[1..], client)
  }

  // The loop of the update check: the first candidate no gate turns away.
  method ChooseOffer(candidates: seq<Candidate>, client: Client) returns (choice: Option<Candidate>)
    ensures choice == FirstPassing(candidates, client)
  {
    for i := 0 to |candidates|
      invariant FirstPassing(candidates[i..], client) == FirstPassing(candidates, client)
    {
      var candidate := candidates[i];
      assert candidates[i..][0] == candidate && candidates[i..][1..] == candidates[i + 1..];
      if candidate.signature.None? || V.TrimEnd(V.TrimStart(candidate.signature.value)) == "" {
        continue;
      }
      if candidate.publishedAt.None? {
        continue;
      }
      if !V.VersionGreater(candidate.version, client.currentVersion) {
        continue;
      }
      if candidate.minimumSupported.Some? {
        if !V.VersionAtLeast(client.currentVersion, candidate.minimumSupported.value) {
          continue;
        }
      }
      if candidate.minimumUpdater.Some? {
        if client.updaterVersion.None? {
          continue;
        }
        if !V.VersionAtLeast(client.updaterVersion.value, candidate.minimumUpdater.value) {
          continue;
        }
      }
      if client.currentBuild == Some(candidate.buildId) {
        continue;
      }
      if !RolloutAllows(client, candidate.campaign, candidate.percentage) {
        continue;
      }
      return Some(candidate);
    }
    choice := None;
  }

  // --- Tickets and receipts -------------------------------------------------------------------------

  function FindTicket(ts: seq<Ticket>, offer: Offer): (id: Option<Id>)
    ensures id.Some? ==> id.value < |ts| && ts[id.value].offer == offer
    ensures id.None? ==> forall t | t in ts :: t.offer != offer
  {
    if ts == [] then None
    else if ts[|ts| - 1].offer == offer then Some(|ts| - 1)
    else FindTicket(ts[..|ts| - 1], offer)
  }

  function IssueTicket(s: Catalogue, offer: Offer, now: Time): (Catalogue, Id) {
    var row := Ticket(offer, now, now + TICKET_SECONDS);
    match FindTicket(s.tickets, offer)
    case None => (s.(tickets := s.tickets + [row]), |s.tickets|)
    case Some(id) => (s.(tickets := s.tickets[id := row]), id)
  }

  // `owned`: the installation belongs to the customer.
  function RecordEvent(s: Catalogue, owned: bool, event: Id, installation: Id, ticket: Id,
                       now: Time): (Catalogue, Outcome) {
    if !owned then (s, Refused(InvalidState))
    else if ticket >= |s.tickets| || s.tickets[ticket].offer.installation != installation
        || s.tickets[ticket].expiresAt <= now then
      (s, Refused(InvalidTicket))
    else if exists r | r in s.receipts :: r.event == event then (s, Done(event))
    else
      var offer := s.tickets[ticket].offer;
      (s.(receipts := s.receipts + [Receipt(event, installation, offer.campaign, offer.release, ticket)]), Done(event))
  }
}
