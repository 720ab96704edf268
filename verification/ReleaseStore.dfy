/**
  The release tables as rows that each operation reads, tests and updates in place, and whole runs
  of them with update checks split into lookup and ticket.
 */
module ReleaseStore {
  import opened Wrappers
  import opened Releases
  import opened ReleaseRuns

  class ReleaseRepository {
    var releases: seq<Release>
    var artifacts: seq<Artifact>
    var campaigns: seq<Campaign>
    var tickets: seq<Ticket>
    var receipts: seq<Receipt>

    function Rows(): Catalogue
      reads this
    {
      Catalogue(releases, artifacts, campaigns, tickets, receipts)
    }

    ghost predicate Valid()
      reads this
    {
      Sound(System(Rows(), multiset{}))
    }

    constructor ()
      ensures Valid() && Rows() == EMPTY
    {
      releases, artifacts, campaigns, tickets, receipts := [], [], [], [], [];
    }

    // --- Releases and artifacts ---------------------------------------------------------------------

    // The one release of this product, version and build, new or as it was registered.
    method Create(known: bool, product: string, version: string, buildId: string, channel: string,
                  minimumSupported: Option<string>, minimumUpdater: Option<string>)
      returns (outcome: Outcome)
      requires Valid()
      modifies this
      ensures Valid()
      ensures (Rows(), outcome)
           == CreateRelease(old(Rows()), known, product, version, buildId, channel, minimumSupported, minimumUpdater)
      ensures old(releases) <= releases
      ensures outcome.Done? ==>
                && known && outcome.id < |releases| && releases[outcome.id].channel == channel
                && forall r: Id | r < |releases| ::
                     releases[r].product == product && releases[r].version == version && releases[r].buildId == buildId
                     <==> r == outcome.id
      ensures outcome.Refused? ==> releases == old(releases)
    {
      StepKeepsSound(System(Rows(), multiset{}),
                     Action.Create(known, product, version, buildId, channel, minimumSupported, minimumUpdater), 0);
      if !known {
        return Refused(ProductNotFound);
      }
      var existing := FindRelease(releases, product, version, buildId);
      if existing.Some? {
        if releases[existing.value].channel != channel {
          return Refused(InvalidState);
        }
        return Done(existing.value);
      }
      outcome := Done(|releases|);
      releases := releases + [Release(product, version, buildId, channel, minimumSupported, minimumUpdater,
                                      Draft, None)];
    }

    // The one artifact in this slot of the release, with this very content.
    method Register(release: Id, slot: Slot, content: Content) returns (outcome: Outcome)
      requires Valid()
      modifies this
      ensures Valid()
      ensures (Rows(), outcome) == RegisterArtifact(old(Rows()), release, slot, content)
      ensures old(artifacts) <= artifacts
      ensures outcome.Done? ==>
                && outcome.id < |artifacts| && artifacts[outcome.id].content == content
                && (forall a: Id | a < |artifacts| ::
                      artifacts[a].release == release && artifacts[a].slot == slot <==> a == outcome.id)
                && release < |releases| && !Immutable(releases[release].status) && !releases[release].status.Draft?
    {
      StepKeepsSound(System(Rows(), multiset{}), Action.Register(release, slot, content), 0);
      if slot.role == "updater" && content.signature.None? {
        return Refused(InvalidState);
      }
      if release >= |releases| {
        return Refused(ReleaseNotFound);
      }
      var status := releases[release].status;
      if Immutable(status) {
        return Refused(InvalidState);
      }
      var existing := FindArtifact(artifacts, release, slot);
      if existing.Some? {
        return if artifacts[existing.value].content == content then Done(existing.value) else Refused(InvalidState);
      }
      outcome := Done(|artifacts|);
      artifacts := artifacts + [Artifact(release, slot, content, false)];
      if status.Draft? {
        releases := releases[release := releases[release].(status := ArtifactsPending)];
      }
    }

    // A validated release owns an artifact; only its status has moved, and not back from published.
    method Validate(id: Id) returns (outcome: Outcome)
      requires Valid()
      modifies this
      ensures Valid()
      ensures (Rows(), outcome) == ValidateRelease(old(Rows()), id)
      ensures outcome.Done? ==>
                && id < |releases| && OwnsArtifact(artifacts, id)
                && releases[id].status == (if old(releases)[id].status.Published? then Published else Validated)
      ensures forall i | 0 <= i < |old(releases)| && i != id :: i < |releases| && releases[i] == old(releases)[i]
      ensures Rows() == old(Rows()).(releases := releases) && (outcome.Refused? ==> Rows() == old(Rows()))
    {
      StepKeepsSound(System(Rows(), multiset{}), Action.Validate(id), 0);
      if id >= |releases| {
        return Refused(ReleaseNotFound);
      }
      var status := releases[id].status;
      if status.Blocked? || status.Retired? {
        return Refused(InvalidState);
      }
      if !status.Validated? && !status.Published? {
        if !HasValidatedArtifact(artifacts, id) {
          return Refused(InvalidState);
        }
        releases := releases[id := releases[id].(status := Validated)];
      }
      outcome := Done(id);
    }

    // A published release owns an artifact and keeps the time it was first published.
    method Publish(id: Id, now: Time) returns (outcome: Outcome)
      requires Valid()
      modifies this
      ensures Valid()
      ensures (Rows(), outcome) == PublishRelease(old(Rows()), id, now)
      ensures outcome.Done? <==>
                id < |old(releases)| && (old(releases)[id].status.Validated? || old(releases)[id].status.Published?)
      ensures outcome.Done? ==>
                && id < |releases| && releases[id].status.Published? && OwnsArtifact(artifacts, id)
                && releases[id].publishedAt.Some?
                && (old(releases)[id].publishedAt.Some? ==> releases[id].publishedAt == old(releases)[id].publishedAt)
      ensures forall i | 0 <= i < |old(releases)| && i != id :: i < |releases| && releases[i] == old(releases)[i]
      ensures Rows() == old(Rows()).(releases := releases) && (outcome.Refused? ==> Rows() == old(Rows()))
    {
      StepKeepsSound(System(Rows(), multiset{}), Action.Publish(id), now);
      if id >= |releases| {
        return Refused(ReleaseNotFound);
      }
      var row := releases[id];
      if row.status.Validated? {
        releases := releases[id := row.(status := Published,
                                        publishedAt := if row.publishedAt.Some? then row.publishedAt else Some(now))];
      } else if !row.status.Published? {
        return Refused(InvalidState);
      }
      outcome := Done(id);
    }

    // update ... set status = 'paused' where the campaign targets the release and is active
    method Pause(release: Id)
      modifies `campaigns
      ensures campaigns == PauseCampaigns(old(campaigns), release)
      ensures forall c | c in campaigns :: !(c.release == release && c.status.Active?)
    {
      for i := 0 to |campaigns|
        invariant |campaigns| == |old(campaigns)|
        invariant forall j | 0 <= j < i :: campaigns[j] == PauseCampaigns(old(campaigns), release)[j]
        invariant forall j | i <= j < |campaigns| :: campaigns[j] == old(campaigns)[j]
      {
        if campaigns[i].release == release && campaigns[i].status.Active? {
          campaigns := campaigns[i := campaigns[i].(status := Paused)];
        }
      }
    }

    // A blocked release has no active campaign, and no lookup finds it.
    method Block(id: Id) returns (outcome: Outcome)
      requires Valid()
      modifies this
      ensures Valid()
      ensures (Rows(), outcome) == BlockRelease(old(Rows()), id)
      ensures outcome.Done? ==>
                && id < |releases| && releases[id].status.Blocked?
                && (forall c | c in campaigns :: !(c.release == id && c.status.Active?))
                && forall req, now, c | c in Lookup(Rows(), req, now) :: c.release != id
      ensures outcome.Refused? ==> Rows() == old(Rows())
    {
      StepKeepsSound(System(Rows(), multiset{}), Action.Block(id), 0);
      BlockedIsNotFound(BlockRelease(Rows(), id).0, id);
      if id >= |releases| {
        return Refused(ReleaseNotFound);
      }
      if !releases[id].status.Blocked? {
        if releases[id].status.Retired? {
          return Refused(InvalidState);
        }
        releases := releases[id := releases[id].(status := Blocked)];
        Pause(id);
      }
      outcome := Done(id);
    }

    // No lookup finds a quarantined artifact, and no campaign of its release is active.
    method Quarantine(id: Id) returns (outcome: Outcome)
      requires Valid()
      modifies this
      ensures Valid()
      ensures (Rows(), outcome) == QuarantineArtifact(old(Rows()), id)
      ensures outcome.Done? ==>
                && id < |artifacts| && artifacts[id].quarantined
                && (forall c | c in campaigns :: !(c.release == artifacts[id].release && c.status.Active?))
                && forall req, now, c | c in Lookup(Rows(), req, now) :: c.artifact != id
    {
      StepKeepsSound(System(Rows(), multiset{}), Action.Quarantine(id), 0);
      QuarantinedIsNotFound(QuarantineArtifact(Rows(), id).0, id);
      if id >= |artifacts| {
        return Refused(ArtifactNotFound);
      }
      artifacts := artifacts[id := artifacts[id].(quarantined := true)];
      Pause(artifacts[id].release);
      outcome := Done(id);
    }

    // --- Campaigns ------------------------------------------------------------------------------------

    // The one campaign of this product and slug: new, as asked for, a draft rolled out to nobody, or
    // else whatever it was before.
    method NewCampaign(known: bool, product: string, release: Id, slug: string, channel: string, ring: string,
                       emergency: bool, startsAt: Option<Time>)
      returns (outcome: Outcome)
      requires Valid()
      modifies this
      ensures Valid()
      ensures (Rows(), outcome)
           == CreateCampaign(old(Rows()), known, product, release, slug, channel, ring, emergency, startsAt)
      ensures old(campaigns) <= campaigns
      ensures outcome.Done? ==>
                && outcome.id < |campaigns|
                && (forall c: Id | c < |campaigns| ::
                      campaigns[c].product == product && campaigns[c].slug == slug <==> c == outcome.id)
                && (outcome.id < |old(campaigns)| ==> campaigns == old(campaigns))
                && (outcome.id >= |old(campaigns)| ==>
                      && campaigns[outcome.id].release == release && campaigns[outcome.id].status.CampaignDraft?
                      && forall req, now, c | c in Lookup(Rows(), req, now) :: c.campaign != outcome.id)
    {
      var action := Action.NewCampaign(known, product, release, slug, channel, ring, emergency, startsAt);
      StepKeepsSound(System(Rows(), multiset{}), action, 0);
      DraftsAreNotFound(Administer(Rows(), action, 0), |campaigns|);
      if !known {
        return Refused(ProductNotFound);
      }
      if release >= |releases| {
        return Refused(ReleaseNotFound);
      }
      if releases[release].product != product {
        return Refused(InvalidState);
      }
      if releases[release].status.Blocked? || releases[release].status.Retired? {
        return Refused(InvalidState);
      }
      var existing := FindCampaign(campaigns, product, slug);
      if existing.Some? {
        return Done(existing.value);
      }
      outcome := Done(|campaigns|);
      campaigns := campaigns + [Campaign(product, release, slug, channel, ring, emergency, startsAt, 0, CampaignDraft)];
    }

    // The campaign is where it was sent, on a published release if that is active; nothing else moved.
    method Move(id: Id, status: CampaignStatus) returns (outcome: Outcome)
      requires Valid()
      modifies this
      ensures Valid()
      ensures (Rows(), outcome) == MoveCampaign(old(Rows()), id, status)
      ensures outcome.Done? ==>
                && id < |campaigns| && campaigns[id].status == status
                && (status.Active? ==> TargetsPublished(Rows(), campaigns[id]))
                && (old(campaigns)[id].status.Revoked? ==> status.Revoked?)
      ensures |campaigns| == |old(campaigns)|
      ensures forall i | 0 <= i < |campaigns| && (i != id || outcome.Refused?) :: campaigns[i] == old(campaigns)[i]
    {
      StepKeepsSound(System(Rows(), multiset{}), Action.Move(id, status), 0);
      if id >= |campaigns| {
        return Refused(CampaignNotFound);
      }
      var current := campaigns[id];
      if current.status != status {
        if status.Active? && !TargetsPublished(Rows(), current) {
          return Refused(InvalidState);
        }
        if current.status.Revoked? {
          return Refused(InvalidState);
        }
        campaigns := campaigns[id := current.(status := status)];
      }
      outcome := Done(id);
    }

    // Whoever could be offered the campaign before a raise can be after it.
    method Rollout(id: Id, percentage: int) returns (outcome: Outcome)
      requires Valid()
      modifies this
      ensures Valid()
      ensures (Rows(), outcome) == SetRollout(old(Rows()), id, percentage)
      ensures outcome.Done? <==> id < |old(campaigns)| && !old(campaigns)[id].status.Revoked?
      ensures outcome.Done? ==> id < |campaigns| && campaigns[id] == old(campaigns)[id].(percentage := percentage)
      ensures outcome.Done? && old(campaigns)[id].percentage <= percentage ==>
                forall client | RolloutAllows(client, id, old(campaigns)[id].percentage) ::
                  RolloutAllows(client, id, campaigns[id].percentage)
      ensures |campaigns| == |old(campaigns)|
      ensures forall i | 0 <= i < |campaigns| && (i != id || outcome.Refused?) :: campaigns[i] == old(campaigns)[i]
    {
      StepKeepsSound(System(Rows(), multiset{}), Action.Rollout(id, percentage), 0);
      if id >= |campaigns| {
        return Refused(CampaignNotFound);
      }
      if campaigns[id].status.Revoked? {
        return Refused(InvalidState);
      }
      if campaigns[id].percentage != percentage {
        campaigns := campaigns[id := campaigns[id].(percentage := percentage)];
      }
      assert campaigns == old(campaigns)[id := old(campaigns)[id].(percentage := percentage)];
      outcome := Done(id);
    }

    // --- Update checks --------------------------------------------------------------------------------

    // The check's first statement and its loop; the ticket is a later statement of its own.
    method Check(req: Request, client: Client, now: Time) returns (choice: Option<Candidate>)
      requires Valid()
      ensures choice == FirstPassing(Lookup(Rows(), req, now), client)
      ensures choice.Some? ==> Grounded(Rows(), Offer(req.installation, choice.value.campaign, choice.value.release))
    {
      ChoiceIsGrounded(Rows(), req, client, now);
      choice := ChooseOffer(Lookup(Rows(), req, now), client);
    }

    // The offer's one ticket, good for an hour from now; issued again it keeps its token.
    method Issue(offer: Offer, now: Time) returns (token: Id)
      requires Valid() && Grounded(Rows(), offer)
      modifies this
      ensures Valid()
      ensures (Rows(), token) == IssueTicket(old(Rows()), offer, now)
      ensures token < |tickets| && tickets[token].expiresAt == now + TICKET_SECONDS
      ensures forall t: Id | t < |tickets| :: tickets[t].offer == offer <==> t == token
      ensures forall t | 0 <= t < |old(tickets)| ::
                t < |tickets| && tickets[t].offer == old(tickets)[t].offer
                    && (t != token ==> tickets[t] == old(tickets)[t])
    {
      IssueKeepsSound(Rows(), offer, now);
      var existing := FindTicket(tickets, offer);
      var row := Ticket(offer, now, now + TICKET_SECONDS);
      if existing.Some? {
        token := existing.value;
        tickets := tickets[token := row];
      } else {
        token := |tickets|;
        tickets := tickets + [row];
      }
    }

    // The event is stored once, for a release that was published, on a ticket of this installation.
    method Receive(owned: bool, event: Id, installation: Id, ticket: Id, now: Time) returns (outcome: Outcome)
      requires Valid()
      modifies this
      ensures Valid()
      ensures (Rows(), outcome) == RecordEvent(old(Rows()), owned, event, installation, ticket, now)
      ensures outcome.Done? ==>
                && ticket < |tickets| && tickets[ticket].offer.installation == installation
                    && now < tickets[ticket].expiresAt
                && exists i: nat :: i < |receipts| && OnlyReceiptOf(Rows(), event, i)
      ensures old(receipts) <= receipts && (outcome.Refused? ==> receipts == old(receipts))
    {
      ReceiveKeepsSound(Rows(), owned, event, installation, ticket, now);
      EventIsStoredOnce(Rows(), owned, event, installation, ticket, now);
      if !owned {
        return Refused(InvalidState);
      }
      if ticket >= |tickets| || tickets[ticket].offer.installation != installation || tickets[ticket].expiresAt <= now {
        return Refused(InvalidTicket);
      }
      if !exists r | r in receipts :: r.event == event {
        var offer := tickets[ticket].offer;
        receipts := receipts + [Receipt(event, installation, offer.campaign, offer.release, ticket)];
      }
      outcome := Done(event);
    }
  }

  lemma BlockedIsNotFound(s: Catalogue, id: Id)
    ensures id < |s.releases| && s.releases[id].status.Blocked? ==>
              forall req, now, c | c in Lookup(s, req, now) :: c.release != id
  {
    forall req, now, c | c in Lookup(s, req, now)
      ensures c.release < |s.releases| && s.releases[c.release].status.Published?
    {
      LookupFailsClosed(s, req, now, c);
    }
  }

  lemma QuarantinedIsNotFound(s: Catalogue, id: Id)
    ensures id < |s.artifacts| && s.artifacts[id].quarantined ==>
              forall req, now, c | c in Lookup(s, req, now) :: c.artifact != id
  {
    forall req, now, c | c in Lookup(s, req, now)
      ensures c.artifact < |s.artifacts| && !s.artifacts[c.artifact].quarantined
    {
      LookupFailsClosed(s, req, now, c);
    }
  }

  lemma DraftsAreNotFound(s: Catalogue, id: Id)
    ensures id < |s.campaigns| && s.campaigns[id].status.CampaignDraft? ==>
              forall req, now, c | c in Lookup(s, req, now) :: c.campaign != id
  {
    forall req, now, c | c in Lookup(s, req, now)
      ensures c.campaign < |s.campaigns| && s.campaigns[c.campaign].status.Active?
    {
      LookupFailsClosed(s, req, now, c);
    }
  }

  lemma IssueKeepsSound(s: Catalogue, offer: Offer, now: Time)
    requires Sound(System(s, multiset{})) && Grounded(s, offer)
    ensures Sound(System(IssueTicket(s, offer, now).0, multiset{}))
  {
    var sys := System(s, multiset{offer});
    StepKeepsSound(sys, Action.Issue(offer), now);
    assert multiset{offer} - multiset{offer} == multiset{};
  }

  ghost predicate OnlyReceiptOf(s: Catalogue, event: Id, i: nat)
    requires i < |s.receipts|
  {
    && s.receipts[i].event == event && s.receipts[i].release < |s.releases|
    && s.releases[s.receipts[i].release].publishedAt.Some?
    && forall j | 0 <= j < |s.receipts| && s.receipts[j].event == event :: j == i
  }

  lemma EventIsStoredOnce(s: Catalogue, owned: bool, event: Id, installation: Id, ticket: Id, now: Time)
    requires Sound(System(s, multiset{}))
    ensures var (s', outcome) := RecordEvent(s, owned, event, installation, ticket, now);
            outcome.Done? ==> exists i: nat :: i < |s'.receipts| && OnlyReceiptOf(s', event, i)
  {
    var (s', outcome) := RecordEvent(s, owned, event, installation, ticket, now);
    if outcome.Done? {
      ReceiveKeepsSound(s, owned, event, installation, ticket, now);
      var i := StoredAt(s, owned, event, installation, ticket, now);
      ReceiptIsOnly(s', event, i);
    }
  }

  lemma ReceiveKeepsSound(s: Catalogue, owned: bool, event: Id, installation: Id, ticket: Id, now: Time)
    requires Sound(System(s, multiset{}))
    ensures Sound(System(RecordEvent(s, owned, event, installation, ticket, now).0, multiset{}))
  {
    StepKeepsSound(System(s, multiset{}), Action.Receive(owned, event, installation, ticket), now);
  }

  lemma StoredAt(s: Catalogue, owned: bool, event: Id, installation: Id, ticket: Id, now: Time) returns (i: nat)
    requires RecordEvent(s, owned, event, installation, ticket, now).1.Done?
    ensures var rows := RecordEvent(s, owned, event, installation, ticket, now).0.receipts;
            i < |rows| && rows[i].event == event
  {
    if r :| r in s.receipts && r.event == event {
      i :| i < |s.receipts| && s.receipts[i] == r;
    } else {
      i := |s.receipts|;
    }
  }

  lemma ReceiptIsOnly(s: Catalogue, event: Id, i: nat)
    requires Sound(System(s, multiset{})) && i < |s.receipts| && s.receipts[i].event == event
    ensures OnlyReceiptOf(s, event, i)
  {
    assert s.receipts[i] in s.receipts;
    assert s.tickets[s.receipts[i].ticket] in s.tickets;
  }

  method Operate(repository: ReleaseRepository, a: Action, now: Time)
    requires repository.Valid() && !a.Check? && !a.Issue?
    modifies repository
    ensures repository.Valid() && repository.Rows() == Administer(old(repository.Rows()), a, now)
  {
    match a {
      case Create(known, product, version, buildId, channel, minimum, updater) =>
        var _ := repository.Create(known, product, version, buildId, channel, minimum, updater);
      case Register(release, slot, content) => var _ := repository.Register(release, slot, content);
      case Validate(release) => var _ := repository.Validate(release);
      case Publish(release) => var _ := repository.Publish(release, now);
      case Block(release) => var _ := repository.Block(release);
      case Quarantine(artifact) => var _ := repository.Quarantine(artifact);
      case NewCampaign(known, product, release, slug, channel, ring, emergency, startsAt) =>
        var _ := repository.NewCampaign(known, product, release, slug, channel, ring, emergency, startsAt);
      case Move(campaign, status) => var _ := repository.Move(campaign, status);
      case Rollout(campaign, percentage) => var _ := repository.Rollout(campaign, percentage);
      case Receive(owned, event, installation, ticket) =>
        var _ := repository.Receive(owned, event, installation, ticket, now);
    }
  }

  // One step of a schedule; `pending` are the offers chosen by checks whose tickets are not yet issued.
  method Perform(repository: ReleaseRepository, pending: multiset<Offer>, a: Action, now: Time)
    returns (left: multiset<Offer>)
    requires Sound(System(repository.Rows(), pending))
    modifies repository
    ensures System(repository.Rows(), left) == Step(System(old(repository.Rows()), pending), a, now)
    ensures Sound(System(repository.Rows(), left))
  {
    StepKeepsSound(System(repository.Rows(), pending), a, now);
    left := pending;
    match a {
      case Check(req, client) =>
        var choice := repository.Check(req, client, now);
        if choice.Some? {
          left := pending + multiset{Offer(req.installation, choice.value.campaign, choice.value.release)};
        }
      case Issue(offer) =>
        if offer in pending {
          var _ := repository.Issue(offer, now);
          left := pending - multiset{offer};
        }
      case _ => Operate(repository, a, now);
    }
  }

  // Any schedule through the stored tables ends where the reference says, sound.
  method Serve(actions: seq<(Action, Time)>) returns (repository: ReleaseRepository, pending: multiset<Offer>)
    ensures fresh(repository) && repository.Valid()
    ensures System(repository.Rows(), pending) == Run(START, actions)
  {
    repository := new ReleaseRepository();
    pending := multiset{};
    for i := 0 to |actions|
      invariant fresh(repository) && Sound(System(repository.Rows(), pending))
      invariant System(repository.Rows(), pending) == Run(START, actions[..i])
    {
      assert actions[..i + 1][..i] == actions[..i];
      pending := Perform(repository, pending, actions[i].0, actions[i].1);
    }
    assert actions[..|actions|] == actions;
  }
}
