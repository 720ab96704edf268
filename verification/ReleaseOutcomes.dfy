/** What each release operation answers, and what an update check offers, read off the tables. */
module ReleaseOutcomes {
  import opened Wrappers
  import V = Versions
  import opened Releases
  import opened ReleaseRuns

  // --- The update check -------------------------------------------------------------------------------

  // The campaign, its release and the artifact are open to the installation that asks.
  predicate Open(s: Catalogue, req: Request, now: Time, c: Id, a: Id) {
    && c < |s.campaigns| && a < |s.artifacts| && s.campaigns[c].release < |s.releases|
    && var campaign, artifact, release := s.campaigns[c], s.artifacts[a], s.releases[s.campaigns[c].release];
    && campaign.status.Active? && release.status.Published? && !artifact.quarantined
    && campaign.product == req.product && release.product == req.product
    && release.channel == campaign.channel && (campaign.channel, campaign.ring) in req.applications
    && (campaign.startsAt == None || campaign.startsAt.value <= now)
    && artifact.release == campaign.release && artifact.slot == req.slot && artifact.slot.role == "updater"
    && req.eligible && c !in req.held
  }

  ghost predicate Newer(version: string, current: string) {
    var v, c := V.VersionParts(version), V.VersionParts(current);
    v.Some? && c.Some? && V.Below(c.value, v.value)
  }

  ghost predicate AtLeast(version: string, minimum: Option<string>) {
    minimum.Some? ==>
      var v, m := V.VersionParts(version), V.VersionParts(minimum.value);
      v.Some? && m.Some? && !V.Below(v.value, m.value)
  }

  // The client may move to the release: from an older version and another build, at or above both
  // minimums, to a signed artifact of a release that was published, in a bucket the campaign reached.
  ghost predicate Suits(s: Catalogue, c: Id, a: Id, client: Client)
    requires c < |s.campaigns| && a < |s.artifacts| && s.campaigns[c].release < |s.releases|
  {
    var release, signature := s.releases[s.campaigns[c].release], s.artifacts[a].content.signature;
    && Newer(release.version, client.currentVersion)
    && AtLeast(client.currentVersion, release.minimumSupported)
    && (release.minimumUpdater.Some? ==>
          client.updaterVersion.Some? && AtLeast(client.updaterVersion.value, release.minimumUpdater))
    && client.currentBuild != Some(release.buildId)
    && release.publishedAt.Some?
    && signature.Some? && (exists ch | ch in signature.value :: !V.IsSpace(ch))
    && client.digest(c) % 10_000 < s.campaigns[c].percentage * 100
  }

  lemma {:induction false} TrimStartBlank(text: string)
    ensures V.TrimStart(text) == "" <==> forall ch | ch in text :: V.IsSpace(ch)
    ensures V.TrimStart(text) != "" ==> !V.IsSpace(V.TrimStart(text)[0])
  {
    if text != "" {
      assert text == [text[0]] + text[1..];
      TrimStartBlank(text[1..]);
    }
  }

  lemma {:induction false} TrimEndBlank(text: string)
    ensures V.TrimEnd(text) == "" <==> forall ch | ch in text :: V.IsSpace(ch)
  {
    if text != "" {
      assert text == text[..|text| - 1] + [text[|text| - 1]];
      TrimEndBlank(text[..|text| - 1]);
    }
  }

  lemma TrimBlank(text: string)
    ensures V.TrimEnd(V.TrimStart(text)) == "" <==> forall ch | ch in text :: V.IsSpace(ch)
  {
    TrimStartBlank(text);
    TrimEndBlank(V.TrimStart(text));
    if V.TrimStart(text) != "" { assert V.TrimStart(text)[0] in V.TrimStart(text); }
  }

  lemma CompareTo(value: string, other: string)
    ensures V.VersionGreater(value, other) <==> Newer(value, other)
    ensures V.VersionAtLeast(value, other) <==> AtLeast(value, Some(other))
  {
    var v, o := V.VersionParts(value), V.VersionParts(other);
    if v.Some? && o.Some? { V.CompareMeans(v.value, o.value); }
  }

  // The gates of the check's loop say the same of the candidate's row.
  lemma PassesIffSuits(s: Catalogue, c: Id, a: Id, client: Client)
    requires c < |s.campaigns| && a < |s.artifacts| && s.campaigns[c].release < |s.releases|
    ensures Passes(CandidateOf(s, c, a), client) <==> Suits(s, c, a, client)
  {
    var candidate := CandidateOf(s, c, a);
    if candidate.signature.Some? { TrimBlank(candidate.signature.value); }
    CompareTo(candidate.version, client.currentVersion);
    if candidate.minimumSupported.Some? { CompareTo(client.currentVersion, candidate.minimumSupported.value); }
    if candidate.minimumUpdater.Some? && client.updaterVersion.Some? {
      CompareTo(client.updaterVersion.value, candidate.minimumUpdater.value);
    }
  }

  lemma MatchesIffOpen(s: Catalogue, req: Request, now: Time, c: Id, a: Id)
    ensures Matches(s, req, now, c, a) <==> Open(s, req, now, c, a)
  {
  }

  lemma {:induction false} FirstPassingIsFirst(candidates: seq<Candidate>, client: Client) returns (i: nat)
    requires FirstPassing(candidates, client).Some?
    ensures i < |candidates| && FirstPassing(candidates, client) == Some(candidates[i])
    ensures forall j | 0 <= j < i :: !Passes(candidates[j], client)
  {
    if Passes(candidates[0], client) {
      i := 0;
    } else {
      i := FirstPassingIsFirst(candidates[1..], client);
      i := i + 1;
    }
  }

  // What a check offers is open to the installation and suits the client.
  lemma OfferMeans(s: Catalogue, req: Request, client: Client, now: Time)
    ensures var choice := FirstPassing(Lookup(s, req, now), client);
            choice.Some? ==>
              && Open(s, req, now, choice.value.campaign, choice.value.artifact)
              && Suits(s, choice.value.campaign, choice.value.artifact, client)
              && choice.value.release == s.campaigns[choice.value.campaign].release
  {
    var choice := FirstPassing(Lookup(s, req, now), client);
    if choice.Some? {
      LookupMatches(s, req, now);
      PassesIffSuits(s, choice.value.campaign, choice.value.artifact, client);
    }
  }

  // And nothing open that suits the client is passed over: the check offers it or one that ranks
  // before it, unless twenty open campaigns rank before it.
  lemma NothingIsPassedOver(s: Catalogue, req: Request, client: Client, now: Time, c: Id, a: Id)
    requires UniqueArtifacts(s.artifacts)
    requires Open(s, req, now, c, a) && Suits(s, c, a, client)
    ensures var rows, choice := Lookup(s, req, now), FirstPassing(Lookup(s, req, now), client);
            && (forall r | r in rows :: r.campaign < |s.campaigns|)
            && (|| (choice.Some? && (choice.value.campaign == c || Before(s, choice.value.campaign, c)))
                || (|rows| == 20 && forall r | r in rows :: Before(s, r.campaign, c)))
  {
    var rows := Lookup(s, req, now);
    LookupIsComplete(s, req, now);
    MatchesIffOpen(s, req, now, c, a);
    PassesIffSuits(s, c, a, client);
    if CandidateOf(s, c, a) in rows {
      var j :| 0 <= j < |rows| && rows[j] == CandidateOf(s, c, a);
      var i := FirstPassingIsFirst(rows, client);
      assert i <= j;
      if i < j { assert Before(s, rows[i].campaign, rows[j].campaign); }
    }
  }

  // --- Releases and artifacts -------------------------------------------------------------------------

  // Refused exactly for an unknown product or channel, or for a registered build asked for in another
  // channel; a new release is a draft with the minimums asked for.
  lemma CreateMeans(s: Catalogue, known: bool, product: string, version: string, buildId: string, channel: string,
                    minimumSupported: Option<string>, minimumUpdater: Option<string>)
    requires UniqueReleases(s.releases)
    ensures var (s', outcome) := CreateRelease(s, known, product, version, buildId, channel, minimumSupported,
                                               minimumUpdater);
            && (outcome == Refused(ProductNotFound) <==> !known)
            && (outcome == Refused(InvalidState) <==>
                  known && exists r | r in s.releases :: r.product == product && r.version == version
                                                         && r.buildId == buildId && r.channel != channel)
            && (outcome.Done? <==> outcome != Refused(ProductNotFound) && outcome != Refused(InvalidState))
            && (outcome == Done(|s.releases|) <==> s' != s)
            && (s' != s ==>
                  && |s'.releases| == |s.releases| + 1 && s' == s.(releases := s'.releases)
                  && s.releases <= s'.releases
                  && var r := s'.releases[|s.releases|];
                  && r.minimumSupported == minimumSupported && r.minimumUpdater == minimumUpdater
                  && r.status == Draft && r.publishedAt == None)
  {
    var found := FindRelease(s.releases, product, version, buildId);
    if found.Some? { assert s.releases[found.value] in s.releases; }
  }

  // Which answer a registration gets, and when it moves the release out of its draft.
  lemma RegisterMeans(s: Catalogue, release: Id, slot: Slot, content: Content)
    requires UniqueArtifacts(s.artifacts)
    ensures var (s', outcome) := RegisterArtifact(s, release, slot, content);
            var unsigned := slot.role == "updater" && content.signature == None;
            var closed := release < |s.releases|
                          && (s.releases[release].status.Published? || s.releases[release].status.Blocked?
                              || s.releases[release].status.Retired?);
            var other := exists a | a in s.artifacts :: a.release == release && a.slot == slot && a.content != content;
            && (outcome == Refused(ReleaseNotFound) <==> !unsigned && release >= |s.releases|)
            && (outcome == Refused(InvalidState) <==>
                  unsigned || closed || (release < |s.releases| && other))
            && (outcome.Refused? ==> s' == s && (outcome.error.ReleaseNotFound? || outcome.error.InvalidState?))
            && (outcome.Done? ==>
                  && (outcome.id < |s.artifacts| ==> s' == s)
                  && (outcome.id >= |s.artifacts| ==>
                        && s'.artifacts == s.artifacts + [Artifact(release, slot, content, false)]
                        && var row := s.releases[release];
                        && s' == s.(artifacts := s'.artifacts,
                                    releases := s.releases[release := row.(
                                      status := if row.status.Draft? then ArtifactsPending else row.status)]))
                  && outcome.id <= |s.artifacts|)
  {
    var found := FindArtifact(s.artifacts, release, slot);
    if found.Some? { assert s.artifacts[found.value] in s.artifacts; }
  }

  // A release can be validated exactly while it is open or already there, once it has an artifact that
  // is not quarantined; it can be blocked exactly unless it is retired.
  lemma ValidateAndBlockMean(s: Catalogue, id: Id)
    ensures var validated, blocked := ValidateRelease(s, id), BlockRelease(s, id);
            && (validated.1 == Refused(ReleaseNotFound) <==> id >= |s.releases|)
            && (blocked.1 == Refused(ReleaseNotFound) <==> id >= |s.releases|)
            && (id < |s.releases| ==>
                  var row := s.releases[id];
                  && (validated.1 == Done(id) <==>
                        || row.status.Validated? || row.status.Published?
                        || ((row.status.Draft? || row.status.ArtifactsPending?)
                            && exists a | a in s.artifacts :: a.release == id && !a.quarantined))
                  && (validated.1 != Done(id) ==> validated == (s, Refused(InvalidState)))
                  && (validated.1 == Done(id) ==>
                        validated.0 == if row.status.Published? then s
                                       else s.(releases := s.releases[id := row.(status := Validated)]))
                  && (blocked.1 == Done(id) <==> !row.status.Retired?)
                  && (row.status.Retired? ==> blocked == (s, Refused(InvalidState)))
                  && (!row.status.Retired? ==>
                        blocked.0.releases == s.releases[id := row.(status := Blocked)]))
  {
  }

  // Only a validated release is published, now for the first time or again with the time it had.
  lemma PublishMeans(s: Catalogue, id: Id, now: Time)
    ensures var (s', outcome) := PublishRelease(s, id, now);
            && (outcome == Refused(ReleaseNotFound) <==> id >= |s.releases|)
            && (outcome.Refused? ==> s' == s)
            && (id < |s.releases| ==>
                  var row := s.releases[id];
                  && (outcome == Done(id) <==> row.status.Validated? || row.status.Published?)
                  && (outcome == Refused(InvalidState) <==> outcome != Done(id))
                  && (row.status.Published? ==> s' == s)
                  && (row.status.Validated? ==>
                        s' == s.(releases := s.releases[id := row.(
                          status := Published, publishedAt := Some(row.publishedAt.GetOr(now)))])))
  {
  }

  // Quarantine is refused exactly for an unknown artifact; like a block, it pauses the release's
  // active campaigns and no other.
  lemma QuarantineMeans(s: Catalogue, id: Id)
    ensures var (s', outcome) := QuarantineArtifact(s, id);
            && (outcome == Refused(ArtifactNotFound) <==> id >= |s.artifacts|) && (outcome.Refused? ==> s' == s)
            && (id < |s.artifacts| ==>
                  && outcome == Done(id)
                  && s' == s.(artifacts := s.artifacts[id := s.artifacts[id].(quarantined := true)],
                              campaigns := s'.campaigns)
                  && Pauses(s.campaigns, s'.campaigns, s.artifacts[id].release))
    ensures BlockRelease(s, id).0 != s ==> Pauses(s.campaigns, BlockRelease(s, id).0.campaigns, id)
  {
  }

  predicate Pauses(before: seq<Campaign>, after: seq<Campaign>, release: Id) {
    && |after| == |before|
    && forall i | 0 <= i < |before| ::
         after[i] == if before[i].release == release && before[i].status.Active? then before[i].(status := Paused)
                     else before[i]
  }

  // --- Campaigns --------------------------------------------------------------------------------------

  // A campaign is created, or found, exactly for a release of its product that is not blocked or
  // retired; a new one is a draft rolled out to nobody, with the channel, ring and start asked for.
  lemma NewCampaignMeans(s: Catalogue, known: bool, product: string, release: Id, slug: string, channel: string,
                         ring: string, emergency: bool, startsAt: Option<Time>)
    ensures var (s', outcome) := CreateCampaign(s, known, product, release, slug, channel, ring, emergency, startsAt);
            && (outcome == Refused(ProductNotFound) <==> !known)
            && (outcome == Refused(ReleaseNotFound) <==> known && release >= |s.releases|)
            && (outcome.Done? <==>
                  && known && release < |s.releases| && s.releases[release].product == product
                  && !s.releases[release].status.Blocked? && !s.releases[release].status.Retired?)
            && (outcome.Refused? ==>
                  s' == s && (outcome.error.ProductNotFound? || outcome.error.ReleaseNotFound?
                              || outcome.error.InvalidState?))
            && (s' != s ==>
                  && outcome == Done(|s.campaigns|) && |s'.campaigns| == |s.campaigns| + 1
                  && s' == s.(campaigns := s.campaigns + [s'.campaigns[|s.campaigns|]])
                  && var c := s'.campaigns[|s.campaigns|];
                  && c.product == product && c.release == release && c.slug == slug && c.channel == channel
                  && c.ring == ring && c.emergency == emergency && c.startsAt == startsAt
                  && c.percentage == 0 && c.status == CampaignDraft)
  {
  }

  // A campaign moves anywhere but out of revoked, and to active only while its release is published.
  lemma MoveMeans(s: Catalogue, id: Id, status: CampaignStatus)
    ensures var (s', outcome) := MoveCampaign(s, id, status);
            && (outcome == Refused(CampaignNotFound) <==> id >= |s.campaigns|)
            && (outcome.Refused? ==> s' == s)
            && (id < |s.campaigns| ==>
                  var c := s.campaigns[id];
                  var published := c.release < |s.releases| && s.releases[c.release].status.Published?;
                  && (outcome == Done(id) <==>
                        c.status == status || (!c.status.Revoked? && (status.Active? ==> published)))
                  && (outcome == Refused(InvalidState) <==> outcome != Done(id))
                  && (outcome == Done(id) ==> s' == s.(campaigns := s.campaigns[id := c.(status := status)])))
  {
  }

  // --- Tickets and receipts ---------------------------------------------------------------------------

  // A ticket is good for an hour, and issuing its offer again extends it under the token it has.
  lemma TicketMeans(s: Catalogue, offer: Offer, now: Time)
    requires UniqueTickets(s)
    ensures var (s', token) := IssueTicket(s, offer, now);
            && token < |s'.tickets| && s'.tickets[token] == Ticket(offer, now, now + 3600)
            && (token < |s.tickets| <==> exists t | t in s.tickets :: t.offer == offer)
            && s' == s.(tickets := if token < |s.tickets| then s.tickets[token := s'.tickets[token]]
                                   else s.tickets + [s'.tickets[token]])
            && forall t: Id | t < |s.tickets| && s.tickets[t].offer == offer :: t == token
  {
    var found := FindTicket(s.tickets, offer);
    if found.Some? { assert s.tickets[found.value] in s.tickets; }
  }

  // An event is refused exactly for an installation that is not the caller's, and for a ticket that is
  // unknown, of another installation, or over; else it is stored unless it was.
  lemma ReceiveMeans(s: Catalogue, owned: bool, event: Id, installation: Id, ticket: Id, now: Time)
    ensures var (s', outcome) := RecordEvent(s, owned, event, installation, ticket, now);
            var live := ticket < |s.tickets| && s.tickets[ticket].offer.installation == installation
                        && now < s.tickets[ticket].expiresAt;
            var stored := exists r | r in s.receipts :: r.event == event;
            && (outcome == Refused(InvalidState) <==> !owned)
            && (outcome == Refused(InvalidTicket) <==> owned && !live)
            && (outcome == Done(event) <==> owned && live)
            && (s' != s <==> owned && live && !stored)
            && (s' != s ==>
                  var offer := s.tickets[ticket].offer;
                  s' == s.(receipts := s.receipts + [Receipt(event, installation, offer.campaign, offer.release,
                                                             ticket)]))
  {
  }
}
