/** The router's commit-reveal table: one pending commit per sender, a global count, an
    expiry window and used nonces. */
module CommitReveal {
  import opened Base
  import opened RouterPaths

  const DEFAULT_MAX_COMMITS: nat := 32
  const DEFAULT_COMMIT_EXPIRY_LEDGERS: nat := 1_000
  const MAX_COMMITS_HARD_CAP: nat := 1_000
  const COMMIT_EXPIRY_HARD_CAP: nat := 518_400

  /** The commitment hash, taken as injective: it stands for what it hashes. */
  datatype Digest = Digest(sender: Address, tokenIn: Address, tokenOut: Address, amountIn: int, minOut: int, nonce: nat, salt: nat)

  datatype Commit = Commit(hash: Digest, ledger: nat)

  datatype Config = Config(maxCommits: nat, expiryLedgers: nat)

  datatype Table = Table(commits: map<Address, Commit>, count: nat, config: Config, used: set<(Address, nat)>)

  const EMPTY_TABLE := Table(map[], 0, Config(DEFAULT_MAX_COMMITS, DEFAULT_COMMIT_EXPIRY_LEDGERS), {})

  /** `ledger + expiry`, saturating in 32 bits. */
  function LastLedger(c: Commit, config: Config): nat {
    Min(c.ledger + config.expiryLedgers, U32_MAX)
  }

  function CommitSwap(t: Table, sender: Address, hash: Digest, now: nat): Result<Table, RouterError> {
    var live := sender in t.commits && now <= LastLedger(t.commits[sender], t.config);
    var _ :- Need(live || t.count < t.config.maxCommits, TooManyCommits);
    var count: nat := if sender in t.commits then t.count else Min(t.count + 1, U32_MAX);
    Ok(t.(commits := t.commits[sender := Commit(hash, now)], count := count))
  }

  function SetConfig(t: Table, maxCommits: nat, expiryLedgers: nat): Result<Table, RouterError> {
    if maxCommits == 0 || maxCommits > MAX_COMMITS_HARD_CAP || expiryLedgers == 0 || expiryLedgers > COMMIT_EXPIRY_HARD_CAP
    then Err(InvalidCommitConfig)
    else Ok(t.(config := Config(maxCommits, expiryLedgers)))
  }

  function Dropped(t: Table, sender: Address): Table {
    t.(commits := t.commits - {sender}, count := Max(t.count - 1, 0))
  }

  function Prune(t: Table, sender: Address, now: nat): (Table, bool) {
    if sender in t.commits && now > LastLedger(t.commits[sender], t.config) then (Dropped(t, sender), true) else (t, false)
  }

  /** `reveal_swap`.  `swapped` is what routing the revealed swap returns.  An expired
      commit is dropped before the error is returned, but the error rolls that back. */
  function Reveal(t: Table, payload: Digest, now: nat, swapped: Result<int, RouterError>): Result<(Table, int), RouterError> {
    var _ :- Need(payload.sender in t.commits, CommitNotFound);
    var entry := t.commits[payload.sender];
    var _ :- Need(now > entry.ledger, CommitRevealTooEarly);
    var _ :- Need(now <= LastLedger(entry, t.config), CommitExpired);
    var _ :- Need((payload.sender, payload.nonce) !in t.used, NonceAlreadyUsed);
    var _ :- Need(payload == entry.hash, CommitHashMismatch);
    var out :- swapped;
    Ok((Dropped(t, payload.sender).(used := t.used + {(payload.sender, payload.nonce)}), out))
  }

  // ---- Runs --------------------------------------------------------------------------

  datatype Event =
    | EvCommit(sender: Address, hash: Digest)
    | EvReveal(payload: Digest, swapped: Result<int, RouterError>)
    | EvPrune(sender: Address)
    | EvConfigure(maxCommits: nat, expiryLedgers: nat)

  /** A call and the ledger it happens in. */
  datatype Timed = Timed(event: Event, now: nat)

  predicate Succeeds(t: Table, e: Timed) {
    match e.event
    case EvCommit(sender, hash) => CommitSwap(t, sender, hash, e.now).Ok?
    case EvReveal(payload, swapped) => Reveal(t, payload, e.now, swapped).Ok?
    case EvPrune(sender) => Prune(t, sender, e.now).1
    case EvConfigure(maxCommits, expiry) => SetConfig(t, maxCommits, expiry).Ok?
  }

  function Next(t: Table, e: Timed): Table {
    match e.event
    case EvCommit(sender, hash) => var r := CommitSwap(t, sender, hash, e.now); if r.Ok? then r.value else t
    case EvReveal(payload, swapped) => var r := Reveal(t, payload, e.now, swapped); if r.Ok? then r.value.0 else t
    case EvPrune(sender) => Prune(t, sender, e.now).0
    case EvConfigure(maxCommits, expiry) => var r := SetConfig(t, maxCommits, expiry); if r.Ok? then r.value else t
  }

  /** The table before the `n`-th call of a run. */
  function TableAt(run: seq<Timed>, n: nat): Table
    requires n <= |run|
  {
    if n == 0 then EMPTY_TABLE else Next(TableAt(run, n - 1), run[n - 1])
  }

  /** The count is the number of stored commits and never exceeds the hard cap; the
      configuration stays within its bounds. */
  ghost predicate TableInv(t: Table) {
    && t.count == |t.commits| <= MAX_COMMITS_HARD_CAP
    && 0 < t.config.maxCommits <= MAX_COMMITS_HARD_CAP && 0 < t.config.expiryLedgers <= COMMIT_EXPIRY_HARD_CAP
  }

  lemma DroppedCounts(t: Table, sender: Address)
    requires TableInv(t) && sender in t.commits
    ensures TableInv(Dropped(t, sender))
  {
    assert t.commits.Keys == (t.commits - {sender}).Keys + {sender};
    assert |t.commits - {sender}| == |t.commits| - 1;
  }

  lemma StoredCounts(t: Table, sender: Address, c: Commit)
    ensures |t.commits[sender := c]| == |t.commits| + (if sender in t.commits then 0 else 1)
  {
    if sender in t.commits {
      assert t.commits[sender := c].Keys == t.commits.Keys;
    } else {
      assert t.commits[sender := c].Keys == t.commits.Keys + {sender};
    }
  }

  lemma NextKeepsInv(t: Table, e: Timed)
    requires TableInv(t)
    ensures TableInv(Next(t, e)) && t.used <= Next(t, e).used
  {
    match e.event {
      case EvCommit(sender, hash) =>
        hide Reveal, Prune, SetConfig, Dropped, LastLedger, Succeeds;
        StoredCounts(t, sender, Commit(hash, e.now));
      case EvReveal(payload, swapped) =>
        hide CommitSwap, Prune, SetConfig, LastLedger, Succeeds;
        if payload.sender in t.commits { DroppedCounts(t, payload.sender); }
      case EvPrune(sender) =>
        hide CommitSwap, Reveal, SetConfig, LastLedger, Succeeds;
        if sender in t.commits { DroppedCounts(t, sender); }
      case EvConfigure(_, _) =>
        hide CommitSwap, Reveal, Prune, Dropped, LastLedger, Succeeds;
    }
  }

  /** Over every run of commits, reveals, prunes and reconfigurations. */
  lemma {:induction false} RunCountsCommits(run: seq<Timed>, n: nat)
    requires n <= |run|
    ensures TableInv(TableAt(run, n))
    decreases n
  {
    if n > 0 {
      RunCountsCommits(run, n - 1);
      NextKeepsInv(TableAt(run, n - 1), run[n - 1]);
    }
  }

  lemma {:induction false} UsedNoncesStay(run: seq<Timed>, i: nat, j: nat)
    requires i <= j <= |run|
    ensures TableAt(run, i).used <= TableAt(run, j).used
    decreases j
  {
    if i < j {
      UsedNoncesStay(run, i, j - 1);
      RunCountsCommits(run, j - 1);
      NextKeepsInv(TableAt(run, j - 1), run[j - 1]);
    }
  }

  ghost predicate RevealsAt(run: seq<Timed>, n: nat, sender: Address, nonce: nat) {
    && n < |run| && run[n].event.EvReveal? && Succeeds(TableAt(run, n), run[n])
    && run[n].event.payload.sender == sender && run[n].event.payload.nonce == nonce
  }

  /** Each sender reveals each nonce successfully at most once. */
  lemma NonceRevealedAtMostOnce(run: seq<Timed>, i: nat, j: nat, sender: Address, nonce: nat)
    requires RevealsAt(run, i, sender, nonce) && RevealsAt(run, j, sender, nonce)
    ensures i == j
  {
    if i < j {
      UsedNoncesStay(run, i + 1, j);
    } else if j < i {
      UsedNoncesStay(run, j + 1, i);
    }
  }

  /** The sender whose entry a call is about. */
  function Subject(e: Timed): Option<Address> {
    match e.event
    case EvCommit(sender, _) => Some(sender)
    case EvReveal(payload, _) => Some(payload.sender)
    case EvPrune(sender) => Some(sender)
    case EvConfigure(_, _) => None
  }

  /** A successful call that replaces or removes `sender`'s entry. */
  ghost predicate Touches(run: seq<Timed>, k: nat, sender: Address) {
    k < |run| && Subject(run[k]) == Some(sender) && Succeeds(TableAt(run, k), run[k])
  }

  /** Only a successful call about `sender` changes its entry, and only a commit leaves
      one behind. */
  lemma EntryChanges(t: Table, e: Timed, sender: Address)
    ensures !(Succeeds(t, e) && Subject(e) == Some(sender)) ==>
              (sender in Next(t, e).commits <==> sender in t.commits)
              && (sender in t.commits ==> Next(t, e).commits[sender] == t.commits[sender])
    ensures Succeeds(t, e) && Subject(e) == Some(sender) && sender in Next(t, e).commits ==>
              e == Timed(EvCommit(sender, Next(t, e).commits[sender].hash), Next(t, e).commits[sender].ledger)
  {
  }

  // ---- Expired entries ---------------------------------------------------------------

  predicate ExpiredEntry(t: Table, sender: Address, now: nat) {
    sender in t.commits && now > LastLedger(t.commits[sender], t.config)
  }

  /** A call that prunes `sender`'s entry, or overwrites it. */
  predicate PrunesOrOverwrites(t: Table, e: Timed, sender: Address) {
    Succeeds(t, e) && Subject(e) == Some(sender) && (e.event.EvPrune? || e.event.EvCommit?)
  }

  /** Exactly which calls end an expired entry: a reveal never does, a prune always does,
      and a commit does by putting an entry of the current ledger in its place. */
  lemma ExpiredEntryEndsExactly(t: Table, e: Timed, sender: Address)
    requires ExpiredEntry(t, sender, e.now)
    ensures !PrunesOrOverwrites(t, e, sender) ==> sender in Next(t, e).commits && Next(t, e).commits[sender] == t.commits[sender]
    ensures e.event == EvPrune(sender) ==> PrunesOrOverwrites(t, e, sender) && sender !in Next(t, e).commits
    ensures PrunesOrOverwrites(t, e, sender) && e.event.EvCommit? ==>
              sender in Next(t, e).commits && Next(t, e).commits[sender].ledger == e.now
  {
  }

  /** Over every run, an entry that is expired at each call stays stored until somebody
      prunes it or its sender commits anew, whatever reveals are attempted meanwhile. */
  lemma {:induction false} ExpiredEntryStays(run: seq<Timed>, i: nat, j: nat, sender: Address)
    requires i <= j <= |run| && sender in TableAt(run, i).commits
    requires forall k :: i <= k < j ==> run[k].now > LastLedger(TableAt(run, i).commits[sender], TableAt(run, k).config)
    requires forall k :: i <= k < j ==> !PrunesOrOverwrites(TableAt(run, k), run[k], sender)
    ensures sender in TableAt(run, j).commits && TableAt(run, j).commits[sender] == TableAt(run, i).commits[sender]
    decreases j
  {
    hide Next, LastLedger, PrunesOrOverwrites;
    if i < j {
      ExpiredEntryStays(run, i, j - 1, sender);
      ExpiredEntryEndsExactly(TableAt(run, j - 1), run[j - 1], sender);
    }
  }

  /** An expired entry does not give its sender a slot: the overwrite succeeds exactly
      when a stranger's commit would, and pruning first helps exactly when that frees the
      one slot that is missing. */
  lemma OverwriteNeedsASlot(t: Table, sender: Address, stranger: Address, hash: Digest, now: nat)
    requires TableInv(t) && ExpiredEntry(t, sender, now) && stranger !in t.commits
    ensures CommitSwap(t, sender, hash, now).Ok? <==> CommitSwap(t, stranger, hash, now).Ok?
    ensures CommitSwap(t, sender, hash, now).Ok? <==> |t.commits| < t.config.maxCommits
    ensures CommitSwap(t, sender, hash, now).Ok? ==> CommitSwap(t, sender, hash, now).value.count == t.count
    ensures CommitSwap(Prune(t, sender, now).0, sender, hash, now).Ok? <==> |t.commits| <= t.config.maxCommits
  {
    DroppedCounts(t, sender);
  }

  /** A table of one slot: its sender's expired commit is refused a successor. */
  lemma FullTableRefusesOverwrite(sender: Address, hash: Digest)
    ensures var run := [Timed(EvConfigure(1, 10), 0), Timed(EvCommit(sender, hash), 0)];
            var t := TableAt(run, 2);
            ExpiredEntry(t, sender, 11) && CommitSwap(t, sender, hash, 11) == Err(TooManyCommits)
  {
    var run := [Timed(EvConfigure(1, 10), 0), Timed(EvCommit(sender, hash), 0)];
    assert TableAt(run, 1) == EMPTY_TABLE.(config := Config(1, 10));
    assert TableAt(run, 2) == Table(map[sender := Commit(hash, 0)], 1, Config(1, 10), {});
  }

  // ---- Where entries come from -------------------------------------------------------

  /** Call `i` is where `sender`'s entry before call `n` comes from. */
  ghost predicate Origin(run: seq<Timed>, i: nat, n: nat, sender: Address, c: Commit) {
    && i < n <= |run| && run[i] == Timed(EvCommit(sender, c.hash), c.ledger) && Touches(run, i, sender)
    && forall k :: i < k < n ==> !Touches(run, k, sender)
  }

  /** Every stored entry was put there by that sender's own commit, and nothing has
      touched it since. */
  lemma {:induction false} EntryHasOrigin(run: seq<Timed>, n: nat, sender: Address) returns (i: nat)
    requires n <= |run| && sender in TableAt(run, n).commits
    ensures Origin(run, i, n, sender, TableAt(run, n).commits[sender])
    decreases n
  {
    hide Next, Succeeds;
    EntryChanges(TableAt(run, n - 1), run[n - 1], sender);
    if Touches(run, n - 1, sender) {
      i := n - 1;
    } else {
      i := EntryHasOrigin(run, n - 1, sender);
    }
  }

  /** Call `n` is a successful reveal and call `i` the commit it consumes: made by the
      same sender, of exactly this payload, at least one ledger and at most the expiry
      earlier, and touched by no other call in between. */
  ghost predicate Consumes(run: seq<Timed>, n: nat, i: nat) {
    && i < n < |run| && run[n].event.EvReveal? && Succeeds(TableAt(run, n), run[n])
    && var payload, expiry := run[n].event.payload, TableAt(run, n).config.expiryLedgers;
    && run[i].event == EvCommit(payload.sender, payload)
    && run[i].now + 1 <= run[n].now <= run[i].now + expiry
    && Touches(run, i, payload.sender) && forall k :: i < k < n ==> !Touches(run, k, payload.sender)
  }

  /** Every successful reveal consumes a commit, which is gone afterwards. */
  lemma RevealConsumesCommit(run: seq<Timed>, n: nat) returns (i: nat)
    requires n < |run| && run[n].event.EvReveal? && Succeeds(TableAt(run, n), run[n])
    ensures Consumes(run, n, i) && run[n].event.payload.sender !in TableAt(run, n + 1).commits
  {
    i := EntryHasOrigin(run, n, run[n].event.payload.sender);
  }

  /** No commit is consumed by two different reveals. */
  lemma CommitConsumedOnce(run: seq<Timed>, n1: nat, n2: nat, i: nat)
    requires Consumes(run, n1, i) && Consumes(run, n2, i)
    ensures n1 == n2
  {
    if n1 < n2 {
      assert Touches(run, n1, run[n2].event.payload.sender);
    } else if n2 < n1 {
      assert Touches(run, n2, run[n1].event.payload.sender);
    }
  }

  // ---- The contract ------------------------------------------------------------------

  class RouterCommits {
    var commits: map<Address, Commit>
    var count: nat
    var config: Config
    var used: set<(Address, nat)>

    ghost function State(): Table
      reads this
    {
      Table(commits, count, config, used)
    }

    constructor ()
      ensures State() == EMPTY_TABLE
    {
      commits, count, used := map[], 0, {};
      config := Config(DEFAULT_MAX_COMMITS, DEFAULT_COMMIT_EXPIRY_LEDGERS);
    }

    ghost predicate Did(r: Outcome<RouterError>, was: Table, spec: Result<Table, RouterError>)
      reads this
    {
      match spec
      case Ok(t) => r == Pass && State() == t
      case Err(e) => r == Fail(e) && State() == was
    }

    method CommitFor(sender: Address, hash: Digest, now: nat) returns (r: Outcome<RouterError>)
      modifies this
      ensures Did(r, old(State()), CommitSwap(old(State()), sender, hash, now))
    {
      var known := sender in commits;
      var isLive := false;
      if known {
        isLive := now <= Min(commits[sender].ledger + config.expiryLedgers, U32_MAX);
      }
      if !known || !isLive {
        if count >= config.maxCommits {
          return Fail(TooManyCommits);
        }
        if !known {
          count := Min(count + 1, U32_MAX);
        }
      }
      commits := commits[sender := Commit(hash, now)];
      return Pass;
    }

    method Configure(maxCommits: nat, expiryLedgers: nat) returns (r: Outcome<RouterError>)
      modifies this
      ensures Did(r, old(State()), SetConfig(old(State()), maxCommits, expiryLedgers))
    {
      if maxCommits == 0 || maxCommits > MAX_COMMITS_HARD_CAP || expiryLedgers == 0 || expiryLedgers > COMMIT_EXPIRY_HARD_CAP {
        return Fail(InvalidCommitConfig);
      }
      config := Config(maxCommits, expiryLedgers);
      return Pass;
    }

    method ClearCommit(sender: Address)
      modifies this
      ensures State() == Dropped(old(State()), sender)
    {
      commits := commits - {sender};
      count := Max(count - 1, 0);
    }

    method PruneExpired(sender: Address, now: nat) returns (freed: bool)
      modifies this
      ensures (State(), freed) == Prune(old(State()), sender, now)
    {
      if sender in commits {
        var entry := commits[sender];
        if now > Min(entry.ledger + config.expiryLedgers, U32_MAX) {
          ClearCommit(sender);
          return true;
        }
      }
      return false;
    }

    method RevealSwap(payload: Digest, now: nat, swapped: Result<int, RouterError>) returns (r: Result<int, RouterError>)
      modifies this
      ensures match Reveal(old(State()), payload, now, swapped)
              case Ok((t, out)) => r == Ok(out) && State() == t
              case Err(e) => r == Err(e) && State() == old(State())
    {
      if payload.sender !in commits {
        return Err(CommitNotFound);
      }
      var entry := commits[payload.sender];
      if now <= entry.ledger {
        return Err(CommitRevealTooEarly);
      }
      if now > Min(entry.ledger + config.expiryLedgers, U32_MAX) {
        // The source clears the entry here; returning the error undoes that.
        return Err(CommitExpired);
      }
      if (payload.sender, payload.nonce) in used {
        return Err(NonceAlreadyUsed);
      }
      if payload != entry.hash {
        return Err(CommitHashMismatch);
      }
      if swapped.Err? {
        return Err(swapped.error);
      }
      ClearCommit(payload.sender);
      used := used + {(payload.sender, payload.nonce)};
      return Ok(swapped.value);
    }
  }
}
