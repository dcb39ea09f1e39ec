/**
 What appending, pruning and migrating keep: the verifier accepts every chain they can make, and nothing is lost but
 what a signed receipt accounts for.
 */
module AuditLaws {
  import opened Prelude
  import opened Texts
  import opened Hashing
  import opened AuditHash
  import opened AuditModel
  import opened AuditVerifier
  import opened AuditCommitment
  import opened AuditSpec
  import Base64

  /** What the tables keep beside being sound: their unique columns, and a link above the anchor. */
  ghost predicate Kept(d: Digests, trust: Trust, s: Store) {
    Sound(d, trust, s) && DistinctEvents(s.events) && DistinctLinkedEvents(s.links) && Rooted(s)
  }

  // ----- links under other events -----

  /** Links find the same events in one table as in another. */
  ghost predicate SameEvents(events: seq<EventRow>, events': seq<EventRow>, links: seq<Link>) {
    forall k :: 0 <= k < |links| ==> FindEvent(events', links[k].eventId) == FindEvent(events, links[k].eventId)
  }

  lemma {:induction false} LinksHoldUnder(d: Digests, events: seq<EventRow>, events': seq<EventRow>, anchor: nat, anchorHash: Text, links: seq<Link>)
    requires LinksHold(d, events, anchor, anchorHash, links)
    requires SameEvents(events, events', links)
    ensures LinksHold(d, events', anchor, anchorHash, links)
  {
    if links != [] {
      var front := links[..|links| - 1];
      assert forall k :: 0 <= k < |front| ==> front[k] == links[k];
      LinksHoldUnder(d, events, events', anchor, anchorHash, front);
      assert FindEvent(events', links[|links| - 1].eventId) == FindEvent(events, links[|links| - 1].eventId);
    }
  }

  lemma FindAppended(events: seq<EventRow>, row: EventRow, id: Text)
    ensures FindEvent(events + [row], id) == if id == row.id then Some(row) else FindEvent(events, id)
  {
    assert (events + [row])[..|events|] == events;
  }

  lemma {:induction false} HeldLinkFindsItsEvent(d: Digests, events: seq<EventRow>, anchor: nat, anchorHash: Text, links: seq<Link>, k: nat)
    requires LinksHold(d, events, anchor, anchorHash, links) && k < |links|
    ensures FindEvent(events, links[k].eventId).Some? && IsDigest(links[k].chainHash)
    ensures WellFormedLink(links[k])
  {
    if k < |links| - 1 { HeldLinkFindsItsEvent(d, events, anchor, anchorHash, links[..|links| - 1], k); }
  }

  lemma {:induction false} FindLinkAt(links: seq<Link>, anchor: int, k: nat)
    requires (forall j :: 0 <= j < |links| ==> links[j].sequence == anchor + 1 + j) && k < |links|
    ensures FindLink(links, anchor + 1 + k) == Some(links[k])
  {
    if k < |links| - 1 { FindLinkAt(links[..|links| - 1], anchor, k); }
  }

  lemma LinksAreNumbered(d: Digests, s: Store)
    requires Hangs(d, s)
    ensures Numbered(s.links, s.state.value.anchorSequence)
  {
    var state := s.state.value;
    forall k | 0 <= k < |s.links| ensures s.links[k].sequence == state.anchorSequence + 1 + k {
      HeldLinksAreNumbered(d, s.events, state.anchorSequence, state.anchorHash, s.links, k);
    }
  }

  // ----- append -----

  lemma SoundHeadsAreChecked(d: Digests, s: Store)
    requires Hangs(d, s)
    ensures HeadIsChecked(s)
  {
    if s.links != [] {
      LinksAreNumbered(d, s);
      FindLinkAt(s.links, s.state.value.anchorSequence, |s.links| - 1);
    }
  }

  lemma LinksHoldSnoc(d: Digests, events: seq<EventRow>, anchor: nat, anchorHash: Text, links: seq<Link>, l: Link)
    ensures LinksHold(d, events, anchor, anchorHash, links + [l]) <==>
      LinksHold(d, events, anchor, anchorHash, links)
      && LinkFault(d, events, l, anchor + |links| + 1, TipHash(anchorHash, links)).None?
  {
    assert (links + [l])[..|links|] == links;
  }

  lemma NewLinkIsIntact(d: Digests, events: seq<EventRow>, n: nat, previous: Text, row: EventRow, redaction: Text, now: int)
    requires FindEvent(events, row.id) == Some(row) && IsDigest(previous) && n >= 1
    ensures LinkFault(d, events, NewLink(d, n, previous, row, redaction, now), n, previous).None? <==> n <= MAX_SAFE
  {
  }

  lemma OldLinksStillHold(d: Digests, s: Store, row: EventRow)
    requires Hangs(d, s) && FindEvent(s.events, row.id).None?
    ensures LinksHold(d, s.events + [row], s.state.value.anchorSequence, s.state.value.anchorHash, s.links)
  {
    var state := s.state.value;
    forall k | 0 <= k < |s.links|
      ensures FindEvent(s.events + [row], s.links[k].eventId) == FindEvent(s.events, s.links[k].eventId)
    {
      HeldLinkFindsItsEvent(d, s.events, state.anchorSequence, state.anchorHash, s.links, k);
      FindAppended(s.events, row, s.links[k].eventId);
    }
    LinksHoldUnder(d, s.events, s.events + [row], state.anchorSequence, state.anchorHash, s.links);
  }

  lemma AppendedLinksHold(d: Digests, s: Store, row: EventRow, redaction: Text, now: int)
    requires Hangs(d, s) && FindEvent(s.events, row.id).None? && s.state.value.headSequence >= 0
    requires IsDigest(s.state.value.headHash)
    ensures var state := s.state.value;
      var link := NewLink(d, state.headSequence + 1, state.headHash, row, redaction, now);
      LinksHold(d, s.events + [row], state.anchorSequence, state.anchorHash, s.links + [link]) <==> state.headSequence < MAX_SAFE
  {
    var state := s.state.value;
    var link := NewLink(d, state.headSequence + 1, state.headHash, row, redaction, now);
    OldLinksStillHold(d, s, row);
    FindAppended(s.events, row, row.id);
    NewLinkIsIntact(d, s.events + [row], state.headSequence + 1, state.headHash, row, redaction, now);
    LinksHoldSnoc(d, s.events + [row], state.anchorSequence, state.anchorHash, s.links, link);
  }

  lemma AppendedAreChained(s: Store, row: EventRow, link: Link)
    requires AllChained(s) && link.eventId == row.id
    ensures AllChained(s.(events := s.events + [row], links := s.links + [link]))
  {
    var links := s.links + [link];
    forall i | 0 <= i < |s.events + [row]| ensures IsChained(links, (s.events + [row])[i]) {
      if i < |s.events| {
        assert IsChained(s.links, s.events[i]);
        var k :| 0 <= k < |s.links| && s.links[k].eventId == s.events[i].id;
        assert links[k].eventId == s.events[i].id;
      } else {
        assert links[|s.links|].eventId == row.id;
      }
    }
  }

  /** An append adds one event and one link at the end and leaves the rest as it was. */
  lemma AppendAddsOne(d: Digests, s: Store, row: EventRow, redaction: Text, now: int)
    requires Append(d, s, row, redaction, now).Some?
    ensures var s' := Append(d, s, row, redaction, now).value;
      && s.state.Some? && s'.state.Some?
      && s'.events == s.events + [row] && |s'.links| == |s.links| + 1 && s'.links[..|s.links|] == s.links
      && s'.links[|s.links|].eventId == row.id
      && s'.state.value.headSequence == s.state.value.headSequence + 1
      && s'.state.value.anchorSequence == s.state.value.anchorSequence && s'.receipts == s.receipts
  {
  }

  lemma AppendKeepsHanging(d: Digests, s: Store, row: EventRow, redaction: Text, now: int)
    requires Hangs(d, s) && AllChained(s) && Append(d, s, row, redaction, now).Some?
    ensures var s' := Append(d, s, row, redaction, now).value;
      AllChained(s') && (Hangs(d, s') <==> s.state.value.headSequence < MAX_SAFE)
  {
    var link := NewLink(d, s.state.value.headSequence + 1, s.state.value.headHash, row, redaction, now);
    AppendedLinksHold(d, s, row, redaction, now);
    AppendedAreChained(s, row, link);
    assert Append(d, s, row, redaction, now).value.events == s.events + [row];
  }

  lemma AppendKeepsAccounts(d: Digests, trust: Trust, s: Store, row: EventRow, redaction: Text, now: int)
    requires Append(d, s, row, redaction, now).Some? && Accounted(d, trust, s)
    ensures var s' := Append(d, s, row, redaction, now).value;
      && Accounted(d, trust, s') && s'.schema == s.schema
      && (s.state.value.headSequence < MAX_SAFE ==> ValidState(d, s'.state.value))
  {
  }

  /** A sound chain stays sound under append exactly while its sequence numbers stay exact. */
  lemma AppendKeepsSound(d: Digests, trust: Trust, s: Store, row: EventRow, redaction: Text, now: int)
    requires Sound(d, trust, s) && Append(d, s, row, redaction, now).Some?
    ensures Sound(d, trust, Append(d, s, row, redaction, now).value) <==> s.state.value.headSequence < MAX_SAFE
  {
    AppendKeepsHanging(d, s, row, redaction, now);
    AppendKeepsAccounts(d, trust, s, row, redaction, now);
  }

  lemma AppendKeepsUniqueness(d: Digests, s: Store, row: EventRow, redaction: Text, now: int)
    requires DistinctEvents(s.events) && DistinctLinkedEvents(s.links)
    requires Append(d, s, row, redaction, now).Some?
    ensures var s' := Append(d, s, row, redaction, now).value;
      DistinctEvents(s'.events) && DistinctLinkedEvents(s'.links) && s'.links != []
  {
    var s' := Append(d, s, row, redaction, now).value;
    assert forall e :: e in s.events ==> e.id != row.id;
  }

  lemma AppendKeepsAll(d: Digests, trust: Trust, s: Store, row: EventRow, redaction: Text, now: int)
    requires Kept(d, trust, s) && s.state.value.headSequence < MAX_SAFE && Append(d, s, row, redaction, now).Some?
    ensures Kept(d, trust, Append(d, s, row, redaction, now).value)
  {
    AppendKeepsSound(d, trust, s, row, redaction, now);
    AppendKeepsUniqueness(d, s, row, redaction, now);
  }

  /** A held link is at its place and hashes what it says. */
  lemma {:induction false} HeldLinkIsItsContent(d: Digests, events: seq<EventRow>, anchor: nat, anchorHash: Text, links: seq<Link>, k: nat)
    requires LinksHold(d, events, anchor, anchorHash, links) && k < |links|
    ensures links[k].sequence == anchor + 1 + k && links[k].chainHash == DigestIn(d, LinkContentOf(links[k]))
  {
    if k < |links| - 1 {
      HeldLinkIsItsContent(d, events, anchor, anchorHash, links[..|links| - 1], k);
    } else {
      IntactContents(d, events, links[k], anchor + |links|, TipHash(anchorHash, links[..k]));
      IntactLink(d, events, links[k], anchor + |links|, TipHash(anchorHash, links[..k]));
    }
  }

  lemma NoPlaceIsTaken(d: Digests, s: Store, id: Text)
    requires Hangs(d, s) && FindEvent(s.events, id).None?
    ensures forall k :: 0 <= k < |s.links| ==> s.links[k].sequence != s.state.value.headSequence + 1 && s.links[k].eventId != id
  {
    var state := s.state.value;
    LinksAreNumbered(d, s);
    forall k | 0 <= k < |s.links| ensures s.links[k].sequence != state.headSequence + 1 && s.links[k].eventId != id {
      HeldLinkFindsItsEvent(d, s.events, state.anchorSequence, state.anchorHash, s.links, k);
    }
  }

  predicate HashIsTaken(links: seq<Link>, hash: Text) {
    exists k :: 0 <= k < |links| && links[k].chainHash == hash
  }

  lemma InsertableUnlessTaken(links: seq<Link>, l: Link)
    requires forall k :: 0 <= k < |links| ==> links[k].sequence != l.sequence && links[k].eventId != l.eventId
    ensures Insertable(links, l) <==> !HashIsTaken(links, l.chainHash)
  {
  }

  lemma AppendInserts(d: Digests, s: Store, row: EventRow, redaction: Text, now: int, link: Link)
    requires s.state.Some? && ValidState(d, s.state.value) && HeadIsChecked(s) && FindEvent(s.events, row.id).None?
    requires link == NewLink(d, s.state.value.headSequence + 1, s.state.value.headHash, row, redaction, now)
    ensures Append(d, s, row, redaction, now).Some? <==> Insertable(s.links, link)
  {
  }

  /** The content of the link an append would add. */
  function AddedContent(d: Digests, s: Store, row: EventRow, redaction: Text): Content
    requires s.state.Some? && s.state.value.headSequence >= -1
  {
    LinkContent(s.state.value.headSequence + 1, s.state.value.headHash, d.payload(row, redaction))
  }

  /** An append to a sound chain with a fresh id succeeds exactly when no held link has the hash of the new one. */
  lemma AppendFailsOnATakenHash(d: Digests, trust: Trust, s: Store, row: EventRow, redaction: Text, now: int, link: Link)
    requires Kept(d, trust, s) && FindEvent(s.events, row.id).None?
    requires link == NewLink(d, s.state.value.headSequence + 1, s.state.value.headHash, row, redaction, now)
    ensures Append(d, s, row, redaction, now).Some? <==> !HashIsTaken(s.links, link.chainHash)
  {
    SoundHeadsAreChecked(d, s);
    NoPlaceIsTaken(d, s, row.id);
    InsertableUnlessTaken(s.links, link);
    AppendInserts(d, s, row, redaction, now, link);
  }

  lemma AddedHash(d: Digests, s: Store, row: EventRow, redaction: Text, now: int) returns (link: Link)
    requires s.state.Some? && s.state.value.headSequence >= -1
    ensures link == NewLink(d, s.state.value.headSequence + 1, s.state.value.headHash, row, redaction, now)
    ensures link.chainHash == DigestIn(d, AddedContent(d, s, row, redaction))
  {
    link := NewLink(d, s.state.value.headSequence + 1, s.state.value.headHash, row, redaction, now);
  }

  lemma HeldLinkCollides(sha: Hash, s: Store, k: nat, added: Content)
    requires Hangs(DigestsOf(sha), s) && k < |s.links| && added.LinkContent? && added.sequence == s.state.value.headSequence + 1
    requires s.links[k].chainHash == DigestIn(DigestsOf(sha), added)
    ensures CollisionAmong(sha, {TextOf(added)}, HashedTexts(s))
  {
    var state := s.state.value;
    HeldLinkIsItsContent(DigestsOf(sha), s.events, state.anchorSequence, state.anchorHash, s.links, k);
    var held := LinkContentOf(s.links[k]);
    DigestsCommit(sha, added, held);
    HashedContentsHold(s.events, s.links);
    assert held in HashedContents(s.events, s.links);
    assert TextOf(held) in HashedTexts(s) && TextOf(added) in {TextOf(added)};
  }

  /** A held link with the hash of a new one is a collision between their two texts. */
  lemma TakenHashCollides(sha: Hash, s: Store, added: Content)
    requires Hangs(DigestsOf(sha), s) && added.LinkContent? && added.sequence == s.state.value.headSequence + 1
    requires HashIsTaken(s.links, DigestIn(DigestsOf(sha), added))
    ensures CollisionAmong(sha, {TextOf(added)}, HashedTexts(s))
  {
    var k :| 0 <= k < |s.links| && s.links[k].chainHash == DigestIn(DigestsOf(sha), added);
    HeldLinkCollides(sha, s, k, added);
  }

  /**
   An append to a sound chain fails only on an id that is taken, or when the text of the new link collides with a text
   that was hashed for the chain before.
   */
  lemma AppendSucceeds(sha: Hash, trust: Trust, s: Store, row: EventRow, redaction: Text, now: int)
    requires Kept(DigestsOf(sha), trust, s) && FindEvent(s.events, row.id).None?
    ensures Append(DigestsOf(sha), s, row, redaction, now).Some?
      || CollisionAmong(sha, {TextOf(AddedContent(DigestsOf(sha), s, row, redaction))}, HashedTexts(s))
  {
    var link := AddedHash(DigestsOf(sha), s, row, redaction, now);
    AppendFailsOnATakenHash(DigestsOf(sha), trust, s, row, redaction, now, link);
    var added := AddedContent(DigestsOf(sha), s, row, redaction);
    if HashIsTaken(s.links, DigestIn(DigestsOf(sha), added)) { TakenHashCollides(sha, s, added); }
  }

  // ----- retention -----

  lemma TipOfConcat(anchorHash: Text, before: seq<Link>, after: seq<Link>)
    ensures TipHash(TipHash(anchorHash, before), after) == TipHash(anchorHash, before + after)
  {
    if after == [] { assert before + after == before; }
  }

  lemma LastOfLater(d: Digests, events: seq<EventRow>, anchor: nat, anchorHash: Text, before: seq<Link>, front: seq<Link>, last: Link)
    requires LinksHold(d, events, anchor, anchorHash, before + (front + [last]))
    ensures LinksHold(d, events, anchor, anchorHash, before + front)
    ensures LinkFault(d, events, last, anchor + |before + front| + 1, TipHash(anchorHash, before + front)).None?
  {
    assert before + (front + [last]) == (before + front) + [last];
    LinksHoldSnoc(d, events, anchor, anchorHash, before + front, last);
  }

  lemma {:induction false} LaterLinksHold(d: Digests, events: seq<EventRow>, anchor: nat, anchorHash: Text, before: seq<Link>, after: seq<Link>)
    requires LinksHold(d, events, anchor, anchorHash, before + after)
    ensures LinksHold(d, events, anchor + |before|, TipHash(anchorHash, before), after)
    decreases |after|
  {
    if after != [] {
      var front, last := after[..|after| - 1], after[|after| - 1];
      assert after == front + [last];
      LastOfLater(d, events, anchor, anchorHash, before, front, last);
      LaterLinksHold(d, events, anchor, anchorHash, before, front);
      NextLaterLink(d, events, anchor, anchorHash, before, front, last);
    }
  }

  lemma NextLaterLink(d: Digests, events: seq<EventRow>, anchor: nat, anchorHash: Text, before: seq<Link>, front: seq<Link>, last: Link)
    requires LinkFault(d, events, last, anchor + |before + front| + 1, TipHash(anchorHash, before + front)).None?
    requires LinksHold(d, events, anchor + |before|, TipHash(anchorHash, before), front)
    ensures LinksHold(d, events, anchor + |before|, TipHash(anchorHash, before), front + [last])
  {
    TipOfConcat(anchorHash, before, front);
    LinksHoldSnoc(d, events, anchor + |before|, TipHash(anchorHash, before), front, last);
  }

  lemma SuffixHolds(d: Digests, events: seq<EventRow>, anchor: nat, anchorHash: Text, links: seq<Link>, skip: nat)
    requires LinksHold(d, events, anchor, anchorHash, links) && skip <= |links|
    ensures LinksHold(d, events, anchor + skip, TipHash(anchorHash, links[..skip]), links[skip..])
    ensures TipHash(TipHash(anchorHash, links[..skip]), links[skip..]) == TipHash(anchorHash, links)
  {
    assert links == links[..skip] + links[skip..];
    LaterLinksHold(d, events, anchor, anchorHash, links[..skip], links[skip..]);
    TipOfConcat(anchorHash, links[..skip], links[skip..]);
  }

  lemma OneMoreAbove(front: seq<Link>, last: Link, cutoff: int, skip: nat)
    requires skip <= |front| && Above(front, cutoff) == front[skip..] && last.sequence > cutoff
    ensures Above(front + [last], cutoff) == (front + [last])[skip..]
  {
    assert (front + [last])[..|front|] == front;
    assert (front + [last])[skip..] == front[skip..] + [last];
  }

  lemma {:induction false} AboveIsASuffix(links: seq<Link>, anchor: int, cutoff: int)
    requires (forall j :: 0 <= j < |links| ==> links[j].sequence == anchor + 1 + j)
    requires anchor <= cutoff <= anchor + |links|
    ensures Above(links, cutoff) == links[cutoff - anchor..]
    decreases |links|
  {
    if cutoff == anchor + |links| {
      NothingAbove(links, cutoff);
    } else {
      var front, last := links[..|links| - 1], links[|links| - 1];
      AboveIsASuffix(front, anchor, cutoff);
      assert front + [last] == links;
      OneMoreAbove(front, last, cutoff, cutoff - anchor);
    }
  }

  lemma {:induction false} NothingAbove(links: seq<Link>, cutoff: int)
    requires forall j :: 0 <= j < |links| ==> links[j].sequence <= cutoff
    ensures Above(links, cutoff) == []
  {
    if links != [] { NothingAbove(links[..|links| - 1], cutoff); }
  }

  lemma {:induction false} PrunedIdsCount(links: seq<Link>, anchor: int, cutoff: int)
    requires (forall j :: 0 <= j < |links| ==> links[j].sequence == anchor + 1 + j)
    requires anchor <= cutoff <= anchor + |links|
    ensures |PrunedIds(links, cutoff)| == cutoff - anchor
    decreases |links|
  {
    if links != [] {
      var front := links[..|links| - 1];
      if cutoff == anchor + |links| {
        PrunedIdsCount(front, anchor, cutoff - 1);
        SamePrunedIds(front, cutoff - 1, cutoff);
      } else {
        PrunedIdsCount(front, anchor, cutoff);
      }
    }
  }

  lemma {:induction false} SamePrunedIds(links: seq<Link>, a: int, b: int)
    requires forall j :: 0 <= j < |links| ==> (links[j].sequence <= a <==> links[j].sequence <= b)
    ensures PrunedIds(links, a) == PrunedIds(links, b)
  {
    if links != [] { SamePrunedIds(links[..|links| - 1], a, b); }
  }

  lemma {:induction false} FindAfterDeletion(events: seq<EventRow>, ids: seq<Text>, id: Text)
    requires id !in ids
    ensures FindEvent(Without(events, ids), id) == FindEvent(events, id)
  {
    if events != [] {
      var front, last := events[..|events| - 1], events[|events| - 1];
      FindAfterDeletion(front, ids, id);
      if last.id !in ids {
        FindAppended(Without(front, ids), last, id);
        assert Without(events, ids) == Without(front, ids) + [last];
      } else {
        assert Without(events, ids) == Without(front, ids) + [] == Without(front, ids);
      }
    }
  }

  lemma {:induction false} DeletionKeepsDistinct(events: seq<EventRow>, ids: seq<Text>)
    requires DistinctEvents(events)
    ensures DistinctEvents(Without(events, ids))
  {
    if events != [] {
      var front, last := events[..|events| - 1], events[|events| - 1];
      DeletionKeepsDistinct(front, ids);
      var rest := Without(front, ids);
      assert forall k :: 0 <= k < |rest| ==> rest[k] in front;
    }
  }

  /** The ids of the links that stay are not among the ids that go. */
  lemma KeptIdsAreNotPruned(links: seq<Link>, cutoff: int, k: nat)
    requires DistinctLinkedEvents(links) && k < |links| && links[k].sequence > cutoff
    ensures links[k].eventId !in PrunedIds(links, cutoff)
  {
  }

  /** Links numbered from an anchor on. */
  ghost predicate Numbered(links: seq<Link>, anchor: int) {
    forall j :: 0 <= j < |links| ==> links[j].sequence == anchor + 1 + j
  }

  lemma TipOfFront(anchorHash: Text, links: seq<Link>, skip: nat)
    requires 1 <= skip <= |links|
    ensures TipHash(anchorHash, links[..skip]) == links[skip - 1].chainHash
  {
  }

  lemma LinksLeft(links: seq<Link>, anchor: int, cutoff: int, skip: nat, rest: seq<Link>)
    requires Numbered(links, anchor) && skip <= |links| && cutoff == anchor + skip && rest == links[skip..]
    ensures Above(links, cutoff) == rest
  {
    AboveIsASuffix(links, anchor, cutoff);
  }

  lemma LinksTaken(links: seq<Link>, anchor: int, cutoff: int, skip: nat)
    requires Numbered(links, anchor) && 1 <= skip <= |links| && cutoff == anchor + skip
    ensures |PrunedIds(links, cutoff)| == skip && FindLink(links, cutoff) == Some(links[skip - 1])
  {
    PrunedIdsCount(links, anchor, cutoff);
    FindLinkAt(links, anchor, skip - 1);
  }

  /** The links a cutoff leaves, how many it takes, and the hash it anchors at. */
  lemma CutLinks(links: seq<Link>, anchor: int, anchorHash: Text, cutoff: int, skip: nat)
    requires Numbered(links, anchor) && 1 <= skip <= |links| && cutoff == anchor + skip
    ensures Above(links, cutoff) == links[skip..] && |PrunedIds(links, cutoff)| == skip
    ensures FindLink(links, cutoff) == Some(links[skip - 1])
    ensures TipHash(anchorHash, links[..skip]) == links[skip - 1].chainHash
  {
    LinksLeft(links, anchor, cutoff, skip, links[skip..]);
    LinksTaken(links, anchor, cutoff, skip);
    TipOfFront(anchorHash, links, skip);
  }

  /** The links that stay find the same events as before. */
  lemma RetainedEvents(d: Digests, s: Store, cutoff: int, skip: nat)
    requires Hangs(d, s) && DistinctLinkedEvents(s.links)
    requires skip <= |s.links| && cutoff == s.state.value.anchorSequence + skip
    ensures SameEvents(s.events, Without(s.events, PrunedIds(s.links, cutoff)), s.links[skip..])
  {
    LinksAreNumbered(d, s);
    forall k | 0 <= k < |s.links[skip..]|
      ensures FindEvent(Without(s.events, PrunedIds(s.links, cutoff)), s.links[skip..][k].eventId)
        == FindEvent(s.events, s.links[skip..][k].eventId)
    {
      KeptIdsAreNotPruned(s.links, cutoff, skip + k);
      FindAfterDeletion(s.events, PrunedIds(s.links, cutoff), s.links[skip + k].eventId);
    }
  }

  lemma SuffixHoldsAt(d: Digests, events: seq<EventRow>, anchor: nat, anchorHash: Text, links: seq<Link>,
                      skip: nat, cutoff: nat, tip: Text, rest: seq<Link>)
    requires LinksHold(d, events, anchor, anchorHash, links) && skip <= |links| && cutoff == anchor + skip
    requires tip == TipHash(anchorHash, links[..skip]) && rest == links[skip..]
    ensures LinksHold(d, events, cutoff, tip, rest)
  {
    SuffixHolds(d, events, anchor, anchorHash, links, skip);
  }

  lemma SuffixHoldsUnder(d: Digests, events: seq<EventRow>, events': seq<EventRow>, anchor: nat, anchorHash: Text, links: seq<Link>,
                         skip: nat, cutoff: nat, tip: Text, rest: seq<Link>)
    requires LinksHold(d, events, anchor, anchorHash, links) && skip <= |links| && cutoff == anchor + skip
    requires tip == TipHash(anchorHash, links[..skip]) && rest == links[skip..] && SameEvents(events, events', rest)
    ensures LinksHold(d, events', cutoff, tip, rest)
  {
    SuffixHoldsAt(d, events, anchor, anchorHash, links, skip, cutoff, tip, rest);
    LinksHoldUnder(d, events, events', cutoff, tip, rest);
  }

  lemma PrunedLinksHold(d: Digests, s: Store, cutoff: int, skip: nat)
    requires Hangs(d, s) && DistinctLinkedEvents(s.links) && skip <= |s.links| && cutoff == s.state.value.anchorSequence + skip
    ensures LinksHold(d, Without(s.events, PrunedIds(s.links, cutoff)), cutoff,
                      TipHash(s.state.value.anchorHash, s.links[..skip]), s.links[skip..])
  {
    RetainedEvents(d, s, cutoff, skip);
    SuffixHoldsUnder(d, s.events, Without(s.events, PrunedIds(s.links, cutoff)), s.state.value.anchorSequence,
                     s.state.value.anchorHash, s.links, skip, cutoff, TipHash(s.state.value.anchorHash, s.links[..skip]), s.links[skip..]);
  }

  lemma SuffixKeepsDistinct(links: seq<Link>, skip: nat)
    requires DistinctLinkedEvents(links) && skip <= |links|
    ensures DistinctLinkedEvents(links[skip..])
  {
  }

  lemma HangsFrom(d: Digests, s: Store)
    requires s.state.Some? && 0 <= s.state.value.anchorSequence
    requires LinksHold(d, s.events, s.state.value.anchorSequence, s.state.value.anchorHash, s.links)
    requires s.state.value.headSequence == s.state.value.anchorSequence + |s.links|
    requires s.state.value.headHash == TipHash(s.state.value.anchorHash, s.links)
    ensures Hangs(d, s)
  {
  }

  /** What is left behind a cutoff hangs together, anchored at the hash of the last link that went. */
  lemma RestHangs(d: Digests, s: Store, cutoff: int, skip: nat, s': Store)
    requires Hangs(d, s) && DistinctLinkedEvents(s.links)
    requires 1 <= skip <= |s.links| && cutoff == s.state.value.anchorSequence + skip
    requires s'.state.Some? && ConservesLinks(s, s', cutoff, skip)
    requires s'.events == Without(s.events, PrunedIds(s.links, cutoff))
    ensures Hangs(d, s') && DistinctLinkedEvents(s'.links)
  {
    TipOfFront(s.state.value.anchorHash, s.links, skip);
    PrunedLinksHold(d, s, cutoff, skip);
    SuffixHolds(d, s.events, s.state.value.anchorSequence, s.state.value.anchorHash, s.links, skip);
    SuffixKeepsDistinct(s.links, skip);
    HangsFrom(d, s');
  }

  lemma PrunedHangs(d: Digests, s: Store, cutoff: int, cutoffHash: Text, receipt: Receipt)
    requires Hangs(d, s) && DistinctLinkedEvents(s.links) && s.state.value.anchorSequence < cutoff < s.state.value.headSequence
    requires FindLink(s.links, cutoff).Some? && cutoffHash == FindLink(s.links, cutoff).value.chainHash
    ensures var s' := Pruned(s, cutoff, cutoffHash, receipt); Hangs(d, s') && s'.links != [] && DistinctLinkedEvents(s'.links)
  {
    var skip := cutoff - s.state.value.anchorSequence;
    LinksAreNumbered(d, s);
    CutLinks(s.links, s.state.value.anchorSequence, s.state.value.anchorHash, cutoff, skip);
    PruningConservesLinks(s, cutoff, cutoffHash, receipt, skip);
    RestHangs(d, s, cutoff, skip, Pruned(s, cutoff, cutoffHash, receipt));
  }

  lemma PrunedAreChained(d: Digests, s: Store, cutoff: int)
    requires AllChained(s)
    ensures AllChained(s.(links := Above(s.links, cutoff), events := Without(s.events, PrunedIds(s.links, cutoff))))
  {
    var links, events := Above(s.links, cutoff), Without(s.events, PrunedIds(s.links, cutoff));
    forall i | 0 <= i < |events| ensures IsChained(links, events[i]) {
      var e := events[i];
      assert e in s.events && e.id !in PrunedIds(s.links, cutoff);
      var j :| 0 <= j < |s.events| && s.events[j] == e;
      assert IsChained(s.links, s.events[j]);
      var k :| 0 <= k < |s.links| && s.links[k].eventId == e.id;
      assert s.links[k] in s.links && s.links[k].sequence > cutoff;
      assert s.links[k] in links;
      var m :| 0 <= m < |links| && links[m] == s.links[k];
      assert links[m].eventId == e.id;
    }
  }

  lemma HistorySnoc(d: Digests, trust: Trust, receipts: seq<Receipt>, r: Receipt)
    requires HistoryHolds(d, trust, receipts) && ReceiptFault(trust, r, AnchorAfter(d, receipts)).None?
    ensures HistoryHolds(d, trust, receipts + [r])
    ensures AnchorAfter(d, receipts + [r]) == Anchor(r.prunedThrough, r.prunedHash, Some(r.receiptId))
  {
    assert (receipts + [r])[..|receipts|] == receipts;
  }

  lemma SignedTextIgnoresSignature(r: Receipt, signature: Text, payload: Text)
    ensures ReceiptPayload(r.(signature := signature, payloadJson := payload)) == ReceiptPayload(r)
  {
  }

  /** The receipt a retention writes is what the verifier will ask for. */
  lemma WrittenReceiptIsAttested(trust: Trust, state: ChainState, c: RetentionCall, cutoffHash: Text)
    requires SignedReceipt(trust, state, c, cutoffHash).Some?
    ensures var r := SignedReceipt(trust, state, c, cutoffHash).value;
      && Attested(trust, r)
      && r == Unsigned(state, c, cutoffHash).(signature := r.signature, payloadJson := r.payloadJson)
  {
    var unsigned := Unsigned(state, c, cutoffHash);
    var payload := ReceiptPayload(unsigned);
    SignedTextIgnoresSignature(unsigned, Base64.ToUrl(c.request.sign(payload)), payload);
  }

  lemma PrunedIsAccounted(d: Digests, trust: Trust, s: Store, c: RetentionCall, cutoffHash: Text)
    requires s.state.Some? && ValidState(d, s.state.value) && Accounted(d, trust, s) && Permitted(s, c) && IsDigest(cutoffHash)
    requires SignedReceipt(trust, s.state.value, c, cutoffHash).Some?
    ensures var s' := Pruned(s, c.request.cutoff, cutoffHash, SignedReceipt(trust, s.state.value, c, cutoffHash).value);
      ValidState(d, s'.state.value) && Accounted(d, trust, s')
  {
    var receipt := SignedReceipt(trust, s.state.value, c, cutoffHash).value;
    WrittenReceiptIsAttested(trust, s.state.value, c, cutoffHash);
    assert Continues(receipt, AnchorAfter(d, s.receipts));
    HistorySnoc(d, trust, s.receipts, receipt);
  }

  lemma SignedReceiptsSayWhatTheyPrune(trust: Trust, state: ChainState, c: RetentionCall, cutoffHash: Text)
    requires SignedReceipt(trust, state, c, cutoffHash).Some?
    ensures var r := SignedReceipt(trust, state, c, cutoffHash).value;
      r.receiptId == c.receiptId && r.prunedThrough == c.request.cutoff && r.prunedHash == cutoffHash
  {
  }

  lemma ApprovalIsSigned(trust: Trust, s: Store, c: RetentionCall)
    requires Approve(trust, s, c).Some?
    ensures Permitted(s, c) && FindLink(s.links, c.request.cutoff).Some?
    ensures var hash := FindLink(s.links, c.request.cutoff).value.chainHash;
      IsDigest(hash) && SignedReceipt(trust, s.state.value, c, hash) == Approve(trust, s, c)
  {
  }

  /** A committed retention is a pruning with a signed receipt. */
  lemma RetainPrunes(trust: Trust, s: Store, c: RetentionCall)
    requires Retain(trust, s, c).Some?
    ensures Permitted(s, c) && FindLink(s.links, c.request.cutoff).Some?
    ensures var hash := FindLink(s.links, c.request.cutoff).value.chainHash;
      && IsDigest(hash) && SignedReceipt(trust, s.state.value, c, hash).Some?
      && Retain(trust, s, c).value.0 == Pruned(s, c.request.cutoff, hash, SignedReceipt(trust, s.state.value, c, hash).value)
      && Retain(trust, s, c).value.1
        == RetentionResult(c.receiptId, |PrunedIds(s.links, c.request.cutoff)|, c.request.cutoff, hash, c.request.cutoff + 1)
  {
    ApprovalIsSigned(trust, s, c);
    SignedReceiptsSayWhatTheyPrune(trust, s.state.value, c, FindLink(s.links, c.request.cutoff).value.chainHash);
  }

  lemma PrunedKeepsAll(d: Digests, trust: Trust, s: Store, c: RetentionCall, cutoffHash: Text)
    requires Kept(d, trust, s) && Permitted(s, c) && IsDigest(cutoffHash)
    requires FindLink(s.links, c.request.cutoff).Some? && cutoffHash == FindLink(s.links, c.request.cutoff).value.chainHash
    requires SignedReceipt(trust, s.state.value, c, cutoffHash).Some?
    ensures Kept(d, trust, Pruned(s, c.request.cutoff, cutoffHash, SignedReceipt(trust, s.state.value, c, cutoffHash).value))
  {
    var receipt := SignedReceipt(trust, s.state.value, c, cutoffHash).value;
    PrunedHangs(d, s, c.request.cutoff, cutoffHash, receipt);
    PrunedAreChained(d, s, c.request.cutoff);
    PrunedIsAccounted(d, trust, s, c, cutoffHash);
    DeletionKeepsDistinct(s.events, PrunedIds(s.links, c.request.cutoff));
  }

  /** A committed retention of a sound chain leaves a sound chain. */
  lemma RetainKeepsAll(d: Digests, trust: Trust, s: Store, c: RetentionCall)
    requires Kept(d, trust, s) && Retain(trust, s, c).Some?
    ensures Kept(d, trust, Retain(trust, s, c).value.0)
  {
    RetainPrunes(trust, s, c);
    PrunedKeepsAll(d, trust, s, c, FindLink(s.links, c.request.cutoff).value.chainHash);
  }

  /** What pruning a chain at a cutoff leaves of its links and events. */
  ghost predicate Conserves(s: Store, s': Store, cutoff: int)
    requires s.state.Some? && s'.state.Some?
  {
    var skip := cutoff - s.state.value.anchorSequence;
    && 1 <= skip <= |s.links|
    && ConservesLinks(s, s', cutoff, skip)
    && ConservesEvents(s, s', skip)
    && |s'.receipts| == |s.receipts| + 1 && s'.receipts[..|s.receipts|] == s.receipts
  }

  predicate ConservesLinks(s: Store, s': Store, cutoff: int, skip: nat)
    requires s.state.Some? && s'.state.Some? && 1 <= skip <= |s.links|
  {
    && s'.links == s.links[skip..]
    && s'.state.value.headSequence == s.state.value.headSequence && s'.state.value.headHash == s.state.value.headHash
    && s'.state.value.anchorSequence == cutoff && s'.state.value.anchorHash == s.links[skip - 1].chainHash
  }

  ghost predicate ConservesEvents(s: Store, s': Store, skip: nat)
    requires skip <= |s.links|
  {
    && (forall k :: 0 <= k < |s'.links| ==> FindEvent(s'.events, s'.links[k].eventId) == FindEvent(s.events, s'.links[k].eventId))
    && (forall k :: 0 <= k < skip ==> FindEvent(s'.events, s.links[k].eventId).None?)
  }

  lemma PrunedEventsAreGone(links: seq<Link>, events: seq<EventRow>, anchor: int, cutoff: int, k: nat)
    requires Numbered(links, anchor) && k < |links| && k < cutoff - anchor
    ensures FindEvent(Without(events, PrunedIds(links, cutoff)), links[k].eventId).None?
  {
    assert links[k] in links && links[k].sequence <= cutoff;
    assert links[k].eventId in PrunedIds(links, cutoff);
  }

  lemma PruningConservesEvents(d: Digests, s: Store, cutoff: int, skip: nat, s': Store)
    requires Hangs(d, s) && DistinctLinkedEvents(s.links)
    requires skip <= |s.links| && cutoff == s.state.value.anchorSequence + skip
    requires s'.links == s.links[skip..] && s'.events == Without(s.events, PrunedIds(s.links, cutoff))
    ensures ConservesEvents(s, s', skip)
  {
    LinksAreNumbered(d, s);
    RetainedEvents(d, s, cutoff, skip);
    forall k | 0 <= k < skip ensures FindEvent(s'.events, s.links[k].eventId).None? {
      PrunedEventsAreGone(s.links, s.events, s.state.value.anchorSequence, cutoff, k);
    }
  }

  lemma PruningConservesLinks(s: Store, cutoff: int, cutoffHash: Text, receipt: Receipt, skip: nat)
    requires s.state.Some? && 1 <= skip <= |s.links| && Above(s.links, cutoff) == s.links[skip..]
    requires cutoffHash == s.links[skip - 1].chainHash
    ensures var s' := Pruned(s, cutoff, cutoffHash, receipt);
      && ConservesLinks(s, s', cutoff, skip) && s'.events == Without(s.events, PrunedIds(s.links, cutoff))
      && |s'.receipts| == |s.receipts| + 1 && s'.receipts[..|s.receipts|] == s.receipts
  {
  }

  lemma PruningConserves(d: Digests, s: Store, cutoff: int, cutoffHash: Text, receipt: Receipt)
    requires Hangs(d, s) && DistinctLinkedEvents(s.links) && s.state.value.anchorSequence < cutoff < s.state.value.headSequence
    requires FindLink(s.links, cutoff).Some? && cutoffHash == FindLink(s.links, cutoff).value.chainHash
    ensures Conserves(s, Pruned(s, cutoff, cutoffHash, receipt), cutoff)
    ensures |PrunedIds(s.links, cutoff)| == cutoff - s.state.value.anchorSequence
  {
    var skip := cutoff - s.state.value.anchorSequence;
    LinksAreNumbered(d, s);
    CutLinks(s.links, s.state.value.anchorSequence, s.state.value.anchorHash, cutoff, skip);
    PruningConservesLinks(s, cutoff, cutoffHash, receipt, skip);
    PruningConservesEvents(d, s, cutoff, skip, Pruned(s, cutoff, cutoffHash, receipt));
  }

  /**
   What a committed retention of a sound chain does: it takes exactly the links and events up to the cutoff, reports
   their number, keeps at least the policy's minimum of links as they were with their events, and moves nothing else.
   */
  lemma RetentionConserves(d: Digests, trust: Trust, s: Store, c: RetentionCall)
    requires Kept(d, trust, s) && Retain(trust, s, c).Some?
    ensures var (s', r) := Retain(trust, s, c).value;
      && s'.state.Some? && Conserves(s, s', c.request.cutoff)
      && r.prunedEntries == c.request.cutoff - s.state.value.anchorSequence <= Maximum(c.policy)
      && |s'.links| == s.state.value.headSequence - c.request.cutoff >= Minimum(c.policy)
      && r.anchorSequence == c.request.cutoff && r.anchorHash == s'.state.value.anchorHash
  {
    RetainPrunes(trust, s, c);
    var hash := FindLink(s.links, c.request.cutoff).value.chainHash;
    PruningConserves(d, s, c.request.cutoff, hash, SignedReceipt(trust, s.state.value, c, hash).value);
  }

  // ----- migration -----

  lemma {:induction false} LegacyLinksHold(d: Digests, rows: seq<EventRow>, all: seq<EventRow>, now: int)
    requires DistinctEvents(all) && rows <= all && |rows| <= MAX_SAFE
    ensures LinksHold(d, all, 0, d.genesis, LegacyLinks(d, rows, now))
    ensures forall k :: 0 <= k < |rows| ==> LegacyLinks(d, rows, now)[k].eventId == rows[k].id
    ensures IsDigest(TipHash(d.genesis, LegacyLinks(d, rows, now)))
  {
    if rows != [] {
      var front := rows[..|rows| - 1];
      var earlier := LegacyLinks(d, front, now);
      LegacyLinksHold(d, front, all, now);
      var row := rows[|rows| - 1];
      FindsDistinct(all, |rows| - 1);
      var link := NewLink(d, |rows|, TipHash(d.genesis, earlier), row, Ascii(LEGACY_REDACTION_VERSION), now);
      NewLinkIsIntact(d, all, |rows|, TipHash(d.genesis, earlier), row, Ascii(LEGACY_REDACTION_VERSION), now);
      LinksHoldSnoc(d, all, 0, d.genesis, earlier, link);
    }
  }

  lemma {:induction false} FindsDistinct(events: seq<EventRow>, k: nat)
    requires DistinctEvents(events) && k < |events|
    ensures FindEvent(events, events[k].id) == Some(events[k])
  {
    if k < |events| - 1 { FindsDistinct(events[..|events| - 1], k); }
  }

  /** The texts hashed for links as such. */
  function LinkTexts(links: seq<Link>): set<Text> {
    set k | 0 <= k < |links| :: TextOf(LinkContentOf(links[k]))
  }

  lemma LegacyHashesDiffer(sha: Hash, rows: seq<EventRow>, now: int)
    requires DistinctEvents(rows) && |rows| <= MAX_SAFE
    ensures var links := LegacyLinks(DigestsOf(sha), rows, now);
      DistinctHashes(links) || CollisionAmong(sha, LinkTexts(links), LinkTexts(links))
  {
    var d := DigestsOf(sha);
    var links := LegacyLinks(d, rows, now);
    LegacyLinksHold(d, rows, rows, now);
    forall j, k | 0 <= j < k < |links| && links[j].chainHash == links[k].chainHash
      ensures CollisionAmong(sha, LinkTexts(links), LinkTexts(links))
    {
      HeldLinkIsItsContent(d, rows, 0, d.genesis, links, j);
      HeldLinkIsItsContent(d, rows, 0, d.genesis, links, k);
      DigestsCommit(sha, LinkContentOf(links[j]), LinkContentOf(links[k]));
      assert TextOf(LinkContentOf(links[j])) in LinkTexts(links) && TextOf(LinkContentOf(links[k])) in LinkTexts(links);
    }
  }

  lemma LegacyIsChained(d: Digests, rows: seq<EventRow>, now: int)
    requires DistinctEvents(rows) && |rows| <= MAX_SAFE
    ensures forall i :: 0 <= i < |rows| ==> IsChained(LegacyLinks(d, rows, now), rows[i])
  {
    LegacyLinksHold(d, rows, rows, now);
    var links := LegacyLinks(d, rows, now);
    forall i | 0 <= i < |rows| ensures IsChained(links, rows[i]) {
      assert links[i].eventId == rows[i].id;
    }
  }

  lemma MigratedIsKept(d: Digests, trust: Trust, rows: seq<EventRow>, now: int)
    requires DistinctEvents(rows) && |rows| <= MAX_SAFE && Migrate(d, rows, now).Some?
    ensures Kept(d, trust, Migrate(d, rows, now).value)
  {
    LegacyLinksHold(d, rows, rows, now);
    LegacyIsChained(d, rows, now);
    var s := Migrate(d, rows, now).value;
    assert Hangs(d, s) && Accounted(d, trust, s) && ValidState(d, s.state.value);
  }

  /** The migrated log is sound, and the migration fails on no log unless the texts of two of its links collide. */
  lemma MigrationIsSound(sha: Hash, trust: Trust, rows: seq<EventRow>, now: int)
    requires DistinctEvents(rows) && |rows| <= MAX_SAFE
    ensures var links := LegacyLinks(DigestsOf(sha), rows, now);
      Migrate(DigestsOf(sha), rows, now).Some? || CollisionAmong(sha, LinkTexts(links), LinkTexts(links))
    ensures Migrate(DigestsOf(sha), rows, now).Some? ==>
      Kept(DigestsOf(sha), trust, Migrate(DigestsOf(sha), rows, now).value) && Migrate(DigestsOf(sha), rows, now).value.events == rows
  {
    LegacyHashesDiffer(sha, rows, now);
    if Migrate(DigestsOf(sha), rows, now).Some? { MigratedIsKept(DigestsOf(sha), trust, rows, now); }
  }
}
