/**
 The head of a chain commits to the log above its anchor.
 */
module AuditCommitment {
  import opened Prelude
  import opened Texts
  import opened Hashing
  import opened AuditHash
  import opened AuditModel
  import opened AuditVerifier
  import Base64

  /** Two links are the same but for the time they were appended, which no hash covers. */
  predicate SameLink(l: Link, m: Link) {
    l.(appendedAt := m.appendedAt) == m
  }

  /** Above the larger anchor b the two chains hold the same links to the same events. */
  ghost predicate AgreeAbove(links: seq<Link>, events: seq<EventRow>, skip: nat, links': seq<Link>, events': seq<EventRow>) {
    |links| == skip + |links'| &&
    forall k :: 0 <= k < |links'| ==>
      && SameLink(links[skip + k], links'[k])
      && FindEvent(events, links[skip + k].eventId) == FindEvent(events', links'[k].eventId)
      && FindEvent(events', links'[k].eventId).Some?
  }

  /** What an intact link says. */
  lemma IntactLink(d: Digests, events: seq<EventRow>, l: Link, expected: nat, previous: Text)
    requires LinkFault(d, events, l, expected, previous).None?
    ensures l.sequence == expected && l.previousHash == previous && l.chainVersion == Ascii(CHAIN_VERSION)
    ensures FindEvent(events, l.eventId).Some?
    ensures l.payloadHash == d.payload(FindEvent(events, l.eventId).value, l.redaction)
    ensures l.chainHash == d.link(expected, previous, l.payloadHash)
  {
  }

  // ----- what is hashed for a chain -----

  function LinkContentOf(l: Link): Content {
    LinkContent(if l.sequence >= 0 then l.sequence else 0, l.previousHash, l.payloadHash)
  }

  /** Everything the verifier hashes for the links of a chain: each link, its event, and the beginning. */
  function HashedContents(events: seq<EventRow>, links: seq<Link>): set<Content> {
    {GenesisContent}
    + (set k | 0 <= k < |links| :: LinkContentOf(links[k]))
    + (set k | 0 <= k < |links| && FindEvent(events, links[k].eventId).Some? ::
         PayloadContent(FindEvent(events, links[k].eventId).value, links[k].redaction))
  }

  /** The texts of a store that its own verification hashes. */
  function HashedTexts(s: Store): set<Text> { TextsOf(HashedContents(s.events, s.links)) }

  /** A set holds what is hashed for the links of a chain. */
  ghost predicate Holds(a: set<Content>, events: seq<EventRow>, links: seq<Link>) {
    forall k :: 0 <= k < |links| ==>
      && LinkContentOf(links[k]) in a
      && (FindEvent(events, links[k].eventId).Some? ==>
            PayloadContent(FindEvent(events, links[k].eventId).value, links[k].redaction) in a)
  }

  lemma HashedContentsHold(events: seq<EventRow>, links: seq<Link>)
    ensures Holds(HashedContents(events, links), events, links) && GenesisContent in HashedContents(events, links)
  {
  }

  /** What the hash of an intact link is made of. */
  lemma IntactContents(d: Digests, events: seq<EventRow>, l: Link, n: nat, p: Text)
    requires LinkFault(d, events, l, n, p).None?
    ensures LinkContentOf(l) == LinkContent(n, p, l.payloadHash) && l.chainHash == DigestIn(d, LinkContentOf(l))
    ensures FindEvent(events, l.eventId).Some?
    ensures l.payloadHash == DigestIn(d, PayloadContent(FindEvent(events, l.eventId).value, l.redaction))
  {
    IntactLink(d, events, l, n, p);
  }

  /** Intact links with the same hash are the same link to the same event, unless what they hash collides. */
  lemma EqualTipsAgree(d: Digests, a: set<Content>, events: seq<EventRow>, l: Link, p: Text, n: nat,
                       b: set<Content>, events': seq<EventRow>, m: Link, q: Text, n': nat)
    requires Apart(d, a, b) && Holds(a, events, [l]) && Holds(b, events', [m])
    requires LinkFault(d, events, l, n, p).None? && LinkFault(d, events', m, n', q).None?
    requires l.chainHash == m.chainHash
    ensures n == n' && p == q && SameLink(l, m) && FindEvent(events, l.eventId) == FindEvent(events', m.eventId)
  {
    IntactLink(d, events, l, n, p);
    IntactLink(d, events', m, n', q);
    IntactContents(d, events, l, n, p);
    IntactContents(d, events', m, n', q);
    var e, e' := FindEvent(events, l.eventId).value, FindEvent(events', m.eventId).value;
    assert LinkContentOf([l][0]) in a && LinkContentOf([m][0]) in b;
    assert PayloadContent(e, l.redaction) in a && PayloadContent(e', m.redaction) in b;
    assert PayloadContent(e, l.redaction) == PayloadContent(e', m.redaction);
  }

  lemma AgreementExtends(links: seq<Link>, events: seq<EventRow>, skip: nat, links': seq<Link>, events': seq<EventRow>)
    requires links != [] && links' != []
    requires AgreeAbove(links[..|links| - 1], events, skip, links'[..|links'| - 1], events')
    requires var l, m := links[|links| - 1], links'[|links'| - 1];
      SameLink(l, m) && FindEvent(events, l.eventId) == FindEvent(events', m.eventId) && FindEvent(events', m.eventId).Some?
    ensures AgreeAbove(links, events, skip, links', events')
  {
    var front, front' := links[..|links| - 1], links'[..|links'| - 1];
    forall k | 0 <= k < |links'|
      ensures SameLink(links[skip + k], links'[k])
        && FindEvent(events, links[skip + k].eventId) == FindEvent(events', links'[k].eventId)
        && FindEvent(events', links'[k].eventId).Some?
    {
      if k < |front'| {
        assert links[skip + k] == front[skip + k] && links'[k] == front'[k];
      }
    }
  }

  /** The last links of two chains with the same tip are the same, and name the same hash before them. */
  lemma LastLinksAgree(d: Digests, x: set<Content>, events: seq<EventRow>, n: nat, p: Text, links: seq<Link>,
                       y: set<Content>, events': seq<EventRow>, q: Text, links': seq<Link>)
    requires links != [] && links' != [] && Apart(d, x, y) && Holds(x, events, links) && Holds(y, events', links')
    requires var l, m := links[|links| - 1], links'[|links'| - 1];
      && LinkFault(d, events, l, n, p).None? && LinkFault(d, events', m, n, q).None? && l.chainHash == m.chainHash
    ensures var l, m := links[|links| - 1], links'[|links'| - 1];
      && p == q && SameLink(l, m) && FindEvent(events, l.eventId) == FindEvent(events', m.eventId)
      && FindEvent(events', m.eventId).Some?
  {
    var l, m := links[|links| - 1], links'[|links'| - 1];
    EqualTipsAgree(d, x, events, l, p, n, y, events', m, q, n);
    IntactLink(d, events', m, n, q);
  }

  lemma FrontsHold(x: set<Content>, events: seq<EventRow>, links: seq<Link>, y: set<Content>, events': seq<EventRow>, links': seq<Link>)
    requires links != [] && links' != [] && Holds(x, events, links) && Holds(y, events', links')
    ensures Holds(x, events, links[..|links| - 1]) && Holds(y, events', links'[..|links'| - 1])
  {
  }

  lemma SameFront(links: seq<Link>, skip: nat)
    requires skip < |links|
    ensures links[..|links| - 1][..skip] == links[..skip]
  {
  }

  lemma {:induction false} ChainsAgree(d: Digests, x: set<Content>, events: seq<EventRow>, a: nat, anchorHash: Text, links: seq<Link>,
                                       skip: nat, y: set<Content>, events': seq<EventRow>, anchorHash': Text, links': seq<Link>)
    requires Apart(d, x, y) && Holds(x, events, links) && Holds(y, events', links')
    requires LinksHold(d, events, a, anchorHash, links) && LinksHold(d, events', a + skip, anchorHash', links')
    requires |links| == skip + |links'|
    requires TipHash(anchorHash, links) == TipHash(anchorHash', links')
    ensures AgreeAbove(links, events, skip, links', events') && TipHash(anchorHash, links[..skip]) == anchorHash'
    decreases |links'|
  {
    if links' == [] {
      assert links[..skip] == links;
    } else {
      FrontsHold(x, events, links, y, events', links');
      var front, front' := links[..|links| - 1], links'[..|links'| - 1];
      LastLinksAgree(d, x, events, a + |links|, TipHash(anchorHash, front), links,
                     y, events', TipHash(anchorHash', front'), links');
      ChainsAgree(d, x, events, a, anchorHash, front, skip, y, events', anchorHash', front');
      AgreementExtends(links, events, skip, links', events');
      SameFront(links, skip);
    }
  }

  /** From a link on, and in the hash before it, one chain is another. */
  ghost predicate Meets(links: seq<Link>, events: seq<EventRow>, anchorHash: Text, skip: nat,
                        links': seq<Link>, events': seq<EventRow>, anchorHash': Text) {
    && AgreeAbove(links, events, skip, links', events')
    && skip <= |links| && TipHash(anchorHash, links[..skip]) == anchorHash'
  }

  /** Links that hold from an anchor to a head. */
  predicate Chain(d: Digests, events: seq<EventRow>, anchor: nat, anchorHash: Text, links: seq<Link>, head: int, headHash: Text) {
    LinksHold(d, events, anchor, anchorHash, links) && head == anchor + |links| && headHash == TipHash(anchorHash, links)
  }

  lemma ChainsMeet(d: Digests, x: set<Content>, events: seq<EventRow>, a: nat, anchorHash: Text, links: seq<Link>,
                   y: set<Content>, events': seq<EventRow>, b: nat, anchorHash': Text, links': seq<Link>, head: int, headHash: Text)
    requires Apart(d, x, y) && Holds(x, events, links) && Holds(y, events', links') && a <= b
    requires Chain(d, events, a, anchorHash, links, head, headHash) && Chain(d, events', b, anchorHash', links', head, headHash)
    ensures Meets(links, events, anchorHash, b - a, links', events', anchorHash')
  {
    ChainsAgree(d, x, events, a, anchorHash, links, b - a, y, events', anchorHash', links');
  }

  /** What it means for the head of two sound chains to commit to what is above the larger of their anchors. */
  ghost predicate Committed(s: Store, t: Store)
    requires s.state.Some? && t.state.Some? && 0 <= s.state.value.anchorSequence <= t.state.value.anchorSequence
  {
    var a, b := s.state.value, t.state.value;
    var skip := b.anchorSequence - a.anchorSequence;
    Meets(s.links, s.events, a.anchorHash, skip, t.links, t.events, b.anchorHash)
  }

  lemma HangingChain(d: Digests, s: Store, a: ChainState)
    requires Hangs(d, s) && s.state == Some(a)
    ensures 0 <= a.anchorSequence && Chain(d, s.events, a.anchorSequence, a.anchorHash, s.links, a.headSequence, a.headHash)
  {
  }

  lemma MeetingStoresAreCommitted(s: Store, a: ChainState, t: Store, b: ChainState)
    requires s.state == Some(a) && t.state == Some(b) && 0 <= a.anchorSequence <= b.anchorSequence
    requires Meets(s.links, s.events, a.anchorHash, b.anchorSequence - a.anchorSequence, t.links, t.events, b.anchorHash)
    ensures Committed(s, t)
  {
  }

  lemma EqualHeadsAgree(d: Digests, x: set<Content>, s: Store, y: set<Content>, t: Store)
    requires Apart(d, x, y) && Holds(x, s.events, s.links) && Holds(y, t.events, t.links) && Hangs(d, s) && Hangs(d, t)
    requires s.state.value.anchorSequence <= t.state.value.anchorSequence
    requires s.state.value.headSequence == t.state.value.headSequence && s.state.value.headHash == t.state.value.headHash
    ensures Committed(s, t)
  {
    HangingChain(d, s, s.state.value);
    HangingChain(d, t, t.state.value);
    var a, b := s.state.value, t.state.value;
    ChainsMeet(d, x, s.events, a.anchorSequence, a.anchorHash, s.links, y, t.events, b.anchorSequence, b.anchorHash, t.links,
               a.headSequence, a.headHash);
    MeetingStoresAreCommitted(s, a, t, b);
  }

  /** A text hashed for one store and a different one hashed for the other have the same digest. */
  ghost predicate StoresCollide(sha: Hash, s: Store, t: Store) {
    CollisionAmong(sha, HashedTexts(s), HashedTexts(t))
  }

  lemma StoresAreApart(sha: Hash, s: Store, t: Store) returns (x: set<Content>, y: set<Content>)
    ensures StoresCollide(sha, s, t) || Apart(DigestsOf(sha), x, y)
    ensures Holds(x, s.events, s.links) && Holds(y, t.events, t.links) && GenesisContent in x && GenesisContent in y
  {
    x, y := HashedContents(s.events, s.links), HashedContents(t.events, t.links);
    HashedContentsHold(s.events, s.links);
    HashedContentsHold(t.events, t.links);
    ApartUnlessTheyCollide(sha, x, y);
  }

  /**
   Two sound chains with the same head agree above the larger anchor, and meet there, or a text hashed for one collides
   with a text hashed for the other.
   */
  lemma HeadCommitsToTheLog(sha: Hash, trust: Trust, s: Store, trust': Trust, t: Store)
    requires Sound(DigestsOf(sha), trust, s) && Sound(DigestsOf(sha), trust', t)
    requires s.state.value.anchorSequence <= t.state.value.anchorSequence
    requires s.state.value.headSequence == t.state.value.headSequence && s.state.value.headHash == t.state.value.headHash
    ensures StoresCollide(sha, s, t) || Committed(s, t)
  {
    var x, y := StoresAreApart(sha, s, t);
    if !StoresCollide(sha, s, t) { EqualHeadsAgree(DigestsOf(sha), x, s, y, t); }
  }

  /** A chain that still has its beginning or at least one link. */
  predicate Rooted(s: Store) {
    s.state.Some? && (s.state.value.anchorSequence == 0 || s.links != [])
  }

  lemma {:induction false} HistoryMovesOn(d: Digests, trust: Trust, receipts: seq<Receipt>)
    requires HistoryHolds(d, trust, receipts)
    ensures AnchorAfter(d, receipts).sequence >= |receipts|
  {
    if receipts != [] { HistoryMovesOn(d, trust, receipts[..|receipts| - 1]); }
  }

  lemma RootAnchorIsGenesis(d: Digests, trust: Trust, s: Store)
    requires Accounted(d, trust, s) && s.state.value.anchorSequence == 0
    ensures s.state.value.anchorHash == d.genesis
  {
    HistoryMovesOn(d, trust, s.receipts);
  }

  lemma LinkedAndEmptyDiffer(d: Digests, a: set<Content>, s: Store, trust: Trust, t: Store)
    requires Apart(d, a, {GenesisContent}) && Holds(a, s.events, s.links)
    requires Hangs(d, s) && s.links != []
    requires Hangs(d, t) && Accounted(d, trust, t) && t.links == [] && t.state.value.anchorSequence == 0
    ensures s.state.value.headHash != t.state.value.headHash
  {
    LastContent(d, s);
    RootAnchorIsGenesis(d, trust, t);
    assert LinkContentOf(s.links[|s.links| - 1]) in a;
    assert t.state.value.headHash == DigestIn(d, GenesisContent);
  }

  lemma LastContent(d: Digests, s: Store)
    requires Hangs(d, s) && s.links != []
    ensures var l := s.links[|s.links| - 1];
      s.state.value.headHash == DigestIn(d, LinkContentOf(l)) && l.sequence == s.state.value.headSequence >= 0
  {
    var l := s.links[|s.links| - 1];
    IntactLink(d, s.events, l, s.state.value.anchorSequence + |s.links|,
               TipHash(s.state.value.anchorHash, s.links[..|s.links| - 1]));
  }

  lemma ApartIsSymmetric(d: Digests, a: set<Content>, b: set<Content>)
    requires Apart(d, a, b)
    ensures Apart(d, b, a)
  {
  }

  lemma LinkedHashesCommitToTheLength(d: Digests, a: set<Content>, s: Store, b: set<Content>, t: Store)
    requires Apart(d, a, b) && Holds(a, s.events, s.links) && Holds(b, t.events, t.links)
    requires Hangs(d, s) && s.links != [] && Hangs(d, t) && t.links != []
    requires s.state.value.headHash == t.state.value.headHash
    ensures s.state.value.headSequence == t.state.value.headSequence
  {
    LastContent(d, s);
    LastContent(d, t);
    assert LinkContentOf(s.links[|s.links| - 1]) in a && LinkContentOf(t.links[|t.links| - 1]) in b;
  }

  /** Between rooted chains the hash alone commits, to the length as well. */
  lemma RootedHashCommitsToTheLength(d: Digests, a: set<Content>, trust: Trust, s: Store, b: set<Content>, trust': Trust, t: Store)
    requires Apart(d, a, b) && Holds(a, s.events, s.links) && Holds(b, t.events, t.links) && GenesisContent in a && GenesisContent in b
    requires Hangs(d, s) && Accounted(d, trust, s) && Rooted(s)
    requires Hangs(d, t) && Accounted(d, trust', t) && Rooted(t)
    requires s.state.value.headHash == t.state.value.headHash
    ensures s.state.value.headSequence == t.state.value.headSequence
  {
    if s.links != [] && t.links != [] {
      LinkedHashesCommitToTheLength(d, a, s, b, t);
    } else if s.links != [] {
      LinkedAndEmptyDiffer(d, a, s, trust', t);
    } else if t.links != [] {
      ApartIsSymmetric(d, a, b);
      LinkedAndEmptyDiffer(d, b, t, trust, s);
    }
  }

  lemma RootedStoresHaveOneLength(sha: Hash, trust: Trust, s: Store, trust': Trust, t: Store)
    requires Sound(DigestsOf(sha), trust, s) && Sound(DigestsOf(sha), trust', t) && Rooted(s) && Rooted(t)
    requires s.state.value.headHash == t.state.value.headHash
    ensures StoresCollide(sha, s, t) || s.state.value.headSequence == t.state.value.headSequence
  {
    var x, y := StoresAreApart(sha, s, t);
    if !StoresCollide(sha, s, t) { RootedHashCommitsToTheLength(DigestsOf(sha), x, trust, s, y, trust', t); }
  }

  /**
   Two sound, rooted chains with the same head hash agree above the larger anchor, or a text hashed for one collides
   with a text hashed for the other.
   */
  lemma HeadHashCommitsToTheLog(sha: Hash, trust: Trust, s: Store, trust': Trust, t: Store)
    requires Sound(DigestsOf(sha), trust, s) && Sound(DigestsOf(sha), trust', t) && Rooted(s) && Rooted(t)
    requires s.state.value.anchorSequence <= t.state.value.anchorSequence
    requires s.state.value.headHash == t.state.value.headHash
    ensures StoresCollide(sha, s, t) || (Committed(s, t) && s.state.value.headSequence == t.state.value.headSequence)
  {
    RootedStoresHaveOneLength(sha, trust, s, trust', t);
    if s.state.value.headSequence == t.state.value.headSequence { HeadCommitsToTheLog(sha, trust, s, trust', t); }
  }

  // ----- where the hash alone does not commit -----

  /** Where a history of receipts ends: a number that can be stored, and a hash. */
  ghost predicate EndsAt(d: Digests, trust: Trust, receipts: seq<Receipt>, hash: Text) {
    receipts != [] && HistoryHolds(d, trust, receipts)
    && AnchorAfter(d, receipts).hash == hash && AnchorAfter(d, receipts).sequence <= MAX_SAFE
  }

  /** A store whose whole log was pruned. The verifier accepts it; the retention of the source never makes one. */
  function PrunedStore(d: Digests, receipts: seq<Receipt>): Store {
    var a := AnchorAfter(d, receipts);
    Store(SCHEMA_VERSION,
          Some(ChainState(Ascii(CHAIN_VERSION), d.genesis, a.sequence, a.hash, a.sequence, a.hash, a.receipt)),
          receipts, [], [])
  }

  lemma HistoriesEndInDigests(d: Digests, trust: Trust, receipts: seq<Receipt>)
    requires receipts != [] && HistoryHolds(d, trust, receipts)
    ensures AnchorAfter(d, receipts).sequence >= 1 && IsDigest(AnchorAfter(d, receipts).hash)
  {
    HistoryMovesOn(d, trust, receipts);
  }

  lemma PrunedStoreIsSound(d: Digests, trust: Trust, receipts: seq<Receipt>, hash: Text)
    requires EndsAt(d, trust, receipts, hash)
    ensures Sound(d, trust, PrunedStore(d, receipts)) && !Rooted(PrunedStore(d, receipts))
  {
    HistoriesEndInDigests(d, trust, receipts);
  }

  /**
   The trusted keys have signed a history of retentions that ends at the hash which is the head of this store, but at
   another length.
   */
  ghost predicate AnotherLengthIsSigned(d: Digests, trust: Trust, s: Store)
    requires s.state.Some?
  {
    exists receipts: seq<Receipt> :: EndsAt(d, trust, receipts, s.state.value.headHash)
      && AnchorAfter(d, receipts).sequence != s.state.value.headSequence
  }

  /**
   Signatures are all it takes to show any head hash for a log of another length: beside every store there is one that is
   verified, has no link above its anchor, and has the same head hash.
   */
  lemma HashAloneDoesNotCommit(d: Digests, trust: Trust, s: Store) returns (t: Store)
    requires s.state.Some? && AnotherLengthIsSigned(d, trust, s)
    ensures Sound(d, trust, t) && !Rooted(t)
    ensures t.state.value.headHash == s.state.value.headHash && t.state.value.headSequence != s.state.value.headSequence
    ensures t.links == []
  {
    var receipts: seq<Receipt> :| EndsAt(d, trust, receipts, s.state.value.headHash)
      && AnchorAfter(d, receipts).sequence != s.state.value.headSequence;
    t := PrunedStore(d, receipts);
    PrunedStoreIsSound(d, trust, receipts, s.state.value.headHash);
  }

  /** The head hash of a store determines the length of the log, but for a collision among the texts of two stores. */
  ghost predicate FixesLength(sha: Hash, trust: Trust, s: Store)
    requires s.state.Some?
  {
    forall t: Store :: Sound(DigestsOf(sha), trust, t) && t.state.value.headHash == s.state.value.headHash ==>
      t.state.value.headSequence == s.state.value.headSequence || StoresCollide(sha, s, t)
  }

  /** No text hashed for a store collides with the text a chain begins with. */
  ghost predicate KeepsClearOfGenesis(sha: Hash, s: Store) {
    !CollisionAmong(sha, HashedTexts(s), {GENESIS_TEXT})
  }

  lemma EmptyStoresHashTheBeginning(s: Store)
    requires s.links == []
    ensures HashedTexts(s) == {GENESIS_TEXT}
  {
    assert HashedContents(s.events, s.links) == {GenesisContent};
  }

  /** A store without a root shows where the history of its receipts ends. */
  lemma UnrootedStoresEndTheirHistory(d: Digests, trust: Trust, t: Store)
    requires Sound(d, trust, t) && !Rooted(t)
    ensures EndsAt(d, trust, t.receipts, t.state.value.headHash)
    ensures AnchorAfter(d, t.receipts).sequence == t.state.value.headSequence
  {
  }

  lemma UnsignedLengthsAreFixed(sha: Hash, trust: Trust, s: Store)
    requires Sound(DigestsOf(sha), trust, s) && Rooted(s) && !AnotherLengthIsSigned(DigestsOf(sha), trust, s)
    ensures FixesLength(sha, trust, s)
  {
    forall t: Store | Sound(DigestsOf(sha), trust, t) && t.state.value.headHash == s.state.value.headHash
      ensures t.state.value.headSequence == s.state.value.headSequence || StoresCollide(sha, s, t)
    {
      if Rooted(t) {
        RootedStoresHaveOneLength(sha, trust, s, trust, t);
      } else {
        UnrootedStoresEndTheirHistory(DigestsOf(sha), trust, t);
      }
    }
  }

  /** Where another length is signed, the hash of no store determines its length, rooted or not. */
  lemma SignedLengthsAreOpen(sha: Hash, trust: Trust, s: Store)
    requires s.state.Some? && KeepsClearOfGenesis(sha, s) && AnotherLengthIsSigned(DigestsOf(sha), trust, s)
    ensures !FixesLength(sha, trust, s)
  {
    var t := HashAloneDoesNotCommit(DigestsOf(sha), trust, s);
    EmptyStoresHashTheBeginning(t);
  }

  /**
   The head hash of a verified log that has its beginning or a link left determines the length of the log, among all
   verified stores, exactly when no signed history of retentions ends at that hash with another length.
   */
  lemma HashFixesTheLengthExactly(sha: Hash, trust: Trust, s: Store)
    requires Sound(DigestsOf(sha), trust, s) && Rooted(s) && KeepsClearOfGenesis(sha, s)
    ensures FixesLength(sha, trust, s) <==> !AnotherLengthIsSigned(DigestsOf(sha), trust, s)
  {
    if AnotherLengthIsSigned(DigestsOf(sha), trust, s) {
      SignedLengthsAreOpen(sha, trust, s);
    } else {
      UnsignedLengthsAreFixed(sha, trust, s);
    }
  }

  // ----- such signatures exist -----

  function AnyDate(t: Text): Option<int> { Some(0) }

  function AnySignature(payload: Text, key: Text, signature: seq<Base64.Byte>): bool { true }

  /** One key, whose holder signs everything. */
  function OpenTrust(): Trust {
    Trust([Key([], [], [], Active, None, None, None)], AnyDate, AnySignature)
  }

  function Zeros(): seq<Base64.Byte> { seq(64, i => 0) }

  function WholePruning(d: Digests, n: nat, hash: Digest): Receipt {
    var r := Receipt([], Ascii(RETENTION_FORMAT), Ascii(CHAIN_VERSION), None, 0, d.genesis, n, hash, n + 1,
                     n, hash, [], Ascii("human"), [], [], [], Ascii("Ed25519"), Base64.ToUrl(Zeros()), []);
    r.(payloadJson := ReceiptPayload(r))
  }

  lemma PayloadIgnoresItself(r: Receipt, t: Text)
    ensures ReceiptPayload(r.(payloadJson := t)) == ReceiptPayload(r)
  {
  }

  lemma WholePruningIsAttested(d: Digests, n: nat, hash: Digest)
    ensures Attested(OpenTrust(), WholePruning(d, n, hash))
  {
    var r := WholePruning(d, n, hash);
    Base64.UrlRoundTrip(Zeros());
    assert SignatureBytes(r.signature) == Some(Zeros());
    PayloadIgnoresItself(r.(payloadJson := []), r.payloadJson);
    assert FindKey(OpenTrust().keys, [], []).Some?;
  }

  lemma WholePruningContinues(d: Digests, n: nat, hash: Digest)
    requires 0 < n
    ensures Continues(WholePruning(d, n, hash), Anchor(0, d.genesis, None))
  {
  }

  lemma WholePruningIsAHistory(d: Digests, n: nat, hash: Digest)
    requires 0 < n <= MAX_SAFE
    ensures EndsAt(d, OpenTrust(), [WholePruning(d, n, hash)], hash)
    ensures AnchorAfter(d, [WholePruning(d, n, hash)]).sequence == n
  {
    var receipts := [WholePruning(d, n, hash)];
    WholePruningIsAttested(d, n, hash);
    WholePruningContinues(d, n, hash);
    assert receipts[..0] == [];
    assert HistoryHolds(d, OpenTrust(), receipts[..0]);
  }

  /** With a key that signs everything, another length is signed for every sound store. */
  lemma OpenKeysSignAnyLength(d: Digests, trust: Trust, s: Store)
    requires Sound(d, trust, s)
    ensures AnotherLengthIsSigned(d, OpenTrust(), s)
  {
    WholePruningIsAHistory(d, if s.state.value.headSequence == 1 then 2 else 1, s.state.value.headHash);
  }

  // ----- what no hash covers -----

  lemma {:induction false} AppendTimesDoNotMatter(d: Digests, events: seq<EventRow>, anchor: nat, anchorHash: Text,
                                                  links: seq<Link>, links': seq<Link>)
    requires |links| == |links'| && forall k :: 0 <= k < |links| ==> SameLink(links[k], links'[k])
    ensures LinksHold(d, events, anchor, anchorHash, links) <==> LinksHold(d, events, anchor, anchorHash, links')
    ensures TipHash(anchorHash, links) == TipHash(anchorHash, links')
  {
    if links != [] {
      AppendTimesDoNotMatter(d, events, anchor, anchorHash, links[..|links| - 1], links'[..|links| - 1]);
    }
  }

  /** The times at which links were appended are not committed to: rewriting them leaves a sound chain sound. */
  lemma AppendTimesAreNotCommitted(d: Digests, trust: Trust, s: Store, links': seq<Link>)
    requires Sound(d, trust, s) && |links'| == |s.links| && forall k :: 0 <= k < |s.links| ==> SameLink(s.links[k], links'[k])
    ensures Sound(d, trust, s.(links := links'))
  {
    AppendTimesDoNotMatter(d, s.events, s.state.value.anchorSequence, s.state.value.anchorHash, s.links, links');
    forall i | 0 <= i < |s.events| ensures IsChained(links', s.events[i]) {
      assert IsChained(s.links, s.events[i]);
      var k :| 0 <= k < |s.links| && s.links[k].eventId == s.events[i].id;
      assert links'[k].eventId == s.events[i].id;
    }
  }
}
