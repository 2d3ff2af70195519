/**
 * The Discord bot's bookkeeping (bot.py): the ledger of jobs already announced, with its
 * timestamp pruning and legacy migration; the per-cycle dedup, blacklist filter and
 * recording of scraped roles; and the `!blacklist` / `!unblacklist` commands.
 * Timestamps are integers (microseconds) and the current time is a parameter.
 */
module Bot {
  import opened Wrappers
  import opened Seqs
  import opened Text
  import opened Json

  // ---------------------------------------------------------------------------
  // get_config of bot.py

  /** The configuration bot.py writes when there is no file. */
  function DefaultBotConfig(): seq<Member> {
    [Member("blacklist", JArray([])), Member("posted", JArray([])), Member("posted_with_timestamps", JObject([]))]
  }

  /**
   * `get_config` of bot.py. A missing file gives the default; invalid JSON is not caught,
   * so it fails with the JSONDecodeError; a decoded document gains an empty
   * `posted_with_timestamps` when it has none and is otherwise returned as it is.
   */
  function GetBotConfig(file: ConfigFile): (config: Result<seq<Member>>)
    ensures config.Fail? <==> file.Malformed?
    ensures config.Ok? ==> HasKey(config.value, "posted_with_timestamps")
    ensures file.Missing? ==> config == Ok(DefaultBotConfig())
    ensures file.Parsed? ==> forall k :: HasKey(file.doc, k) ==> Get(config.value, k) == Get(file.doc, k)
    ensures file.Parsed? && !HasKey(file.doc, "posted_with_timestamps") ==>
      Get(config.value, "posted_with_timestamps") == Some(JObject([]))
  {
    match file
    case Missing => Ok(DefaultBotConfig())
    case Malformed => Fail("JSONDecodeError")
    case Parsed(doc) =>
      if HasKey(doc, "posted_with_timestamps") then Ok(doc)
      else
        var config := Put(doc, "posted_with_timestamps", JObject([]));
        assert forall k :: HasKey(doc, k) ==> Get(config, k) == Get(doc, k) by {
          forall k | HasKey(doc, k) ensures Get(config, k) == Get(doc, k) {
            GetPutOther(doc, "posted_with_timestamps", JObject([]), k);
          }
        }
        Ok(config)
  }

  /** Loading a configuration that was loaded before changes nothing. */
  lemma GetBotConfigIdempotent(file: ConfigFile)
    requires GetBotConfig(file).Ok?
    ensures GetBotConfig(Parsed(GetBotConfig(file).value)) == GetBotConfig(file)
  {
  }

  // ---------------------------------------------------------------------------
  // The ledger: posted_with_timestamps

  /** Microseconds in a day. */
  const MicrosPerDay: int := 86_400_000_000

  /** `now - timedelta(days=daysToKeep)`. */
  function Cutoff(now: int, daysToKeep: int): int {
    now - daysToKeep * MicrosPerDay
  }

  /** One member of `posted_with_timestamps`: a job key and the time it was recorded. */
  datatype Stamp = Stamp(job: string, at: int)

  function JobOf(st: Stamp): string {
    st.job
  }

  /** `list(posted_with_timestamps.keys())`. */
  function JobsOf(stamps: seq<Stamp>): (jobs: seq<string>)
    ensures |jobs| == |stamps|
  {
    seq(|stamps|, i requires 0 <= i < |stamps| => stamps[i].job)
  }

  lemma JobsOfConcat(a: seq<Stamp>, b: seq<Stamp>)
    ensures JobsOf(a + b) == JobsOf(a) + JobsOf(b)
  {
    assert forall i :: 0 <= i < |a + b| ==> JobsOf(a + b)[i] == (JobsOf(a) + JobsOf(b))[i];
  }

  /** `stamps[job] = at`: a known job keeps its place and takes the new time, a new job is appended. */
  function SetStamp(stamps: seq<Stamp>, job: string, at: int): seq<Stamp>
  {
    if stamps == [] then [Stamp(job, at)]
    else if stamps[0].job == job then [Stamp(job, at)] + stamps[1..]
    else [stamps[0]] + SetStamp(stamps[1..], job, at)
  }

  /** `stamps[job] = at` for every job of `jobs`, in order. */
  function StampAll(stamps: seq<Stamp>, jobs: seq<string>, at: int): seq<Stamp>
  {
    if jobs == [] then stamps
    else SetStamp(StampAll(stamps, jobs[..|jobs| - 1], at), jobs[|jobs| - 1], at)
  }

  /** New members for `jobs`, all recorded at `at`. */
  function Stamped(jobs: seq<string>, at: int): (stamps: seq<Stamp>)
    ensures |stamps| == |jobs|
  {
    seq(|jobs|, i requires 0 <= i < |jobs| => Stamp(jobs[i], at))
  }

  function KeepsAfter(cutoff: int): Stamp -> Option<Stamp> {
    (st: Stamp) => if st.at > cutoff then Some(st) else None
  }

  /** The comprehension of clean_old_jobs: the members recorded strictly after `cutoff`, in order. */
  function Pruned(stamps: seq<Stamp>, cutoff: int): seq<Stamp> {
    Collect(stamps, KeepsAfter(cutoff))
  }

  /** The ledger `clean_old_jobs` prunes: the existing one, or when there is none every job of `posted` recorded now. */
  function Migrated(hasStamps: bool, stamps: seq<Stamp>, posted: seq<string>, now: int): seq<Stamp> {
    if hasStamps then stamps else StampAll([], posted, now)
  }

  /** The ledger `clean_old_jobs` leaves: the migrated one pruned to the last `daysToKeep` days. */
  function Cleaned(hasStamps: bool, stamps: seq<Stamp>, posted: seq<string>, now: int, daysToKeep: int): seq<Stamp> {
    Pruned(Migrated(hasStamps, stamps, posted, now), Cutoff(now, daysToKeep))
  }

  lemma {:induction false} SetStampJobs(stamps: seq<Stamp>, job: string, at: int)
    ensures JobsOf(SetStamp(stamps, job, at)) == if job in JobsOf(stamps) then JobsOf(stamps) else JobsOf(stamps) + [job]
  {
    if stamps != [] {
      JobsOfConcat([stamps[0]], stamps[1..]);
      assert stamps == [stamps[0]] + stamps[1..];
      assert JobsOf([stamps[0]]) == [stamps[0].job];
      if stamps[0].job == job {
        JobsOfConcat([Stamp(job, at)], stamps[1..]);
        assert JobsOf([Stamp(job, at)]) == [job];
      } else {
        SetStampJobs(stamps[1..], job, at);
        JobsOfConcat([stamps[0]], SetStamp(stamps[1..], job, at));
        assert job in JobsOf(stamps) <==> job in JobsOf(stamps[1..]);
      }
    }
  }

  /** A job the ledger does not know is appended with its time. */
  lemma {:induction false} SetStampNew(stamps: seq<Stamp>, job: string, at: int)
    requires job !in JobsOf(stamps)
    ensures SetStamp(stamps, job, at) == stamps + [Stamp(job, at)]
  {
    if stamps != [] {
      assert JobsOf(stamps) == [stamps[0].job] + JobsOf(stamps[1..]);
      SetStampNew(stamps[1..], job, at);
      assert stamps == [stamps[0]] + stamps[1..];
    }
  }

  /** Every member after `stamps[job] = at` was there before or is the new one. */
  lemma {:induction false} SetStampFrom(stamps: seq<Stamp>, job: string, at: int, st: Stamp)
    requires st in SetStamp(stamps, job, at)
    ensures st in stamps || st == Stamp(job, at)
  {
    if stamps != [] && stamps[0].job != job && st != stamps[0] {
      SetStampFrom(stamps[1..], job, at, st);
    }
  }

  /** A dictionary has each key once. */
  lemma SetStampDistinct(stamps: seq<Stamp>, job: string, at: int)
    requires Distinct(JobsOf(stamps))
    ensures Distinct(JobsOf(SetStamp(stamps, job, at)))
  {
    SetStampJobs(stamps, job, at);
    if job !in JobsOf(stamps) {
      DistinctSnoc(JobsOf(stamps), job);
    }
  }

  lemma {:induction false} StampAllDistinct(stamps: seq<Stamp>, jobs: seq<string>, at: int)
    requires Distinct(JobsOf(stamps))
    ensures Distinct(JobsOf(StampAll(stamps, jobs, at)))
  {
    if jobs != [] {
      StampAllDistinct(stamps, jobs[..|jobs| - 1], at);
      SetStampDistinct(StampAll(stamps, jobs[..|jobs| - 1], at), jobs[|jobs| - 1], at);
    }
  }

  /** After recording `jobs`, the ledger knows exactly its old jobs and those. */
  lemma {:induction false} StampAllJobs(stamps: seq<Stamp>, jobs: seq<string>, at: int, job: string)
    ensures job in JobsOf(StampAll(stamps, jobs, at)) <==> job in JobsOf(stamps) || job in jobs
  {
    if jobs != [] {
      var n := |jobs|;
      StampAllJobs(stamps, jobs[..n - 1], at, job);
      SetStampJobs(StampAll(stamps, jobs[..n - 1], at), jobs[n - 1], at);
      assert jobs == jobs[..n - 1] + [jobs[n - 1]];
    }
  }

  /** Every member after recording `jobs` at `at` was there before or carries `at`. */
  lemma {:induction false} StampAllAt(stamps: seq<Stamp>, jobs: seq<string>, at: int, st: Stamp)
    requires st in StampAll(stamps, jobs, at)
    ensures st in stamps || st.at == at
  {
    if jobs != [] {
      var before := StampAll(stamps, jobs[..|jobs| - 1], at);
      SetStampFrom(before, jobs[|jobs| - 1], at, st);
      if st in before {
        StampAllAt(stamps, jobs[..|jobs| - 1], at, st);
      }
    }
  }

  /** Recording distinct jobs the ledger does not know appends them, in order. */
  lemma {:induction false} StampAllFresh(stamps: seq<Stamp>, jobs: seq<string>, at: int)
    requires Distinct(jobs)
    requires forall j :: j in jobs ==> j !in JobsOf(stamps)
    ensures StampAll(stamps, jobs, at) == stamps + Stamped(jobs, at)
  {
    if jobs != [] {
      var n := |jobs|;
      var init, last := jobs[..n - 1], jobs[n - 1];
      assert forall i :: 0 <= i < n - 1 ==> init[i] == jobs[i];
      StampAllFresh(stamps, init, at);
      var before := stamps + Stamped(init, at);
      assert last !in JobsOf(before) by {
        JobsOfConcat(stamps, Stamped(init, at));
        assert JobsOf(Stamped(init, at)) == init;
      }
      SetStampNew(before, last, at);
      assert Stamped(jobs, at) == Stamped(init, at) + [Stamp(last, at)];
    }
  }

  lemma PrunedFilters(cutoff: int)
    ensures Filters(KeepsAfter(cutoff))
  {
  }

  /**
   * A member survives pruning exactly when it was in the ledger and was recorded strictly
   * after the cutoff: one recorded exactly at the cutoff is removed, and survivors keep
   * their time.
   */
  lemma PrunedKeeps(stamps: seq<Stamp>, cutoff: int, st: Stamp)
    ensures st in Pruned(stamps, cutoff) <==> st in stamps && st.at > cutoff
  {
    CollectMember(stamps, KeepsAfter(cutoff), st);
  }

  /** Pruning keeps the ledger's order, and so its keys stay distinct. */
  lemma PrunedInOrder(stamps: seq<Stamp>, cutoff: int) returns (idx: seq<nat>)
    ensures Picks(stamps, Pruned(stamps, cutoff), idx)
    ensures Distinct(JobsOf(stamps)) ==> Distinct(JobsOf(Pruned(stamps, cutoff)))
  {
    PrunedFilters(cutoff);
    idx := CollectPicks(stamps, KeepsAfter(cutoff));
    if Distinct(JobsOf(stamps)) {
      forall i, j | 0 <= i < j < |stamps| ensures JobOf(stamps[i]) != JobOf(stamps[j]) {
        assert JobsOf(stamps)[i] != JobsOf(stamps)[j];
      }
      PicksDistinctBy(stamps, Pruned(stamps, cutoff), idx, JobOf);
      assert DistinctBy(Pruned(stamps, cutoff), JobOf);
    }
  }

  /** Pruning removes members and keeps the ledger's keys distinct. */
  lemma PrunedBounds(stamps: seq<Stamp>, cutoff: int)
    ensures |Pruned(stamps, cutoff)| <= |stamps|
    ensures Distinct(JobsOf(stamps)) ==> Distinct(JobsOf(Pruned(stamps, cutoff)))
  {
    var _ := PrunedInOrder(stamps, cutoff);
    CollectLength(stamps, KeepsAfter(cutoff));
  }

  /** Nothing is removed exactly when every member is later than the cutoff, and then the ledger is unchanged. */
  lemma NothingPrunedIff(stamps: seq<Stamp>, cutoff: int)
    ensures |Pruned(stamps, cutoff)| <= |stamps|
    ensures |Pruned(stamps, cutoff)| == |stamps| <==> forall k :: 0 <= k < |stamps| ==> stamps[k].at > cutoff
    ensures |Pruned(stamps, cutoff)| == |stamps| ==> Pruned(stamps, cutoff) == stamps
  {
    CollectLength(stamps, KeepsAfter(cutoff));
    if |Pruned(stamps, cutoff)| == |stamps| {
      CollectEvery(stamps, KeepsAfter(cutoff), stamps);
    }
  }

  /**
   * Migration records every legacy job at the current time, so with a positive number of
   * days to keep all of them survive the first clean, once each; with none they are all
   * removed.
   */
  lemma MigrationSurvives(stamps: seq<Stamp>, posted: seq<string>, now: int, daysToKeep: int, job: string)
    ensures Distinct(JobsOf(Cleaned(false, stamps, posted, now, daysToKeep)))
    ensures daysToKeep > 0 ==> (job in JobsOf(Cleaned(false, stamps, posted, now, daysToKeep)) <==> job in posted)
    ensures daysToKeep <= 0 ==> Cleaned(false, stamps, posted, now, daysToKeep) == []
  {
    var migrated := StampAll([], posted, now);
    var cutoff := Cutoff(now, daysToKeep);
    StampAllDistinct([], posted, now);
    var _ := PrunedInOrder(migrated, cutoff);
    forall k | 0 <= k < |migrated| ensures migrated[k].at == now {
      StampAllAt([], posted, now, migrated[k]);
    }
    StampAllJobs([], posted, now, job);
    NothingPrunedIff(migrated, cutoff);
    if daysToKeep > 0 {
      assert Pruned(migrated, cutoff) == migrated;
    } else if migrated != [] {
      var cleaned := Pruned(migrated, cutoff);
      if cleaned != [] {
        PrunedKeeps(migrated, cutoff, cleaned[0]);
        assert false;
      }
    }
  }

  /**
   * A config file from before timestamps were kept is loaded with an empty
   * `posted_with_timestamps`, so clean_old_jobs skips the migration and drops its posted
   * jobs, where the migration would have kept every one of them.
   */
  lemma LegacyConfigDropsPosted(doc: seq<Member>, posted: seq<string>, now: int, daysToKeep: int)
    requires !HasKey(doc, "posted_with_timestamps")
    ensures Get(GetBotConfig(Parsed(doc)).value, "posted_with_timestamps") == Some(JObject([]))
    ensures Cleaned(true, [], posted, now, daysToKeep) == []
    ensures daysToKeep > 0 && posted != [] ==> Cleaned(false, [], posted, now, daysToKeep) != []
  {
    if daysToKeep > 0 && posted != [] {
      MigrationSurvives([], posted, now, daysToKeep, posted[0]);
    }
  }

  /** The migration loop of clean_old_jobs: every legacy job recorded at `now`, in a fresh ledger. */
  method MigrateJobs(legacy: seq<string>, now: int) returns (migrated: seq<Stamp>)
    ensures migrated == StampAll([], legacy, now)
    ensures Distinct(JobsOf(migrated))
  {
    migrated := [];
    for i := 0 to |legacy|
      invariant migrated == StampAll([], legacy[..i], now)
    {
      assert legacy[..i + 1][..i] == legacy[..i];
      migrated := SetStamp(migrated, legacy[i], now);
    }
    assert legacy[..|legacy|] == legacy;
    StampAllDistinct([], legacy, now);
  }

  // ---------------------------------------------------------------------------
  // Dedup and recording in send_new_roles

  /** A role as the bot receives it: company, title, link and picture. */
  datatype Posting = Posting(company: string, title: string, link: string, picture: string)

  /** The dedup key `f"{company} - {title}"`: the link plays no part. */
  function KeyOf(role: Posting): string {
    role.company + " - " + role.title
  }

  function KeysOf(roles: seq<Posting>): (keys: seq<string>)
    ensures |keys| == |roles|
  {
    seq(|roles|, i requires 0 <= i < |roles| => KeyOf(roles[i]))
  }

  lemma KeysOfSnoc(roles: seq<Posting>, role: Posting)
    ensures KeysOf(roles + [role]) == KeysOf(roles) + [KeyOf(role)]
  {
    assert forall i :: 0 <= i < |roles| ==> KeysOf(roles + [role])[i] == KeysOf(roles)[i];
  }

  /**
   * The roles the dedup loop keeps: in batch order, each role whose key is neither
   * already posted nor the key of a role kept before it.
   */
  function UniqueRoles(roles: seq<Posting>, posted: set<string>): seq<Posting>
  {
    if roles == [] then []
    else
      var kept := UniqueRoles(roles[..|roles| - 1], posted);
      var role := roles[|roles| - 1];
      if KeyOf(role) in KeysOf(kept) || KeyOf(role) in posted then kept else kept + [role]
  }

  /** No role at an earlier position of the batch has the key of `roles[i]`. */
  predicate FirstWithKey(roles: seq<Posting>, i: nat)
    requires i < |roles|
  {
    forall j :: 0 <= j < i ==> KeyOf(roles[j]) != KeyOf(roles[i])
  }

  /** The kept keys are exactly the batch's keys that were not posted before. */
  lemma {:induction false} UniqueKeys(roles: seq<Posting>, posted: set<string>, key: string)
    ensures key in KeysOf(UniqueRoles(roles, posted)) <==> key in KeysOf(roles) && key !in posted
  {
    if roles != [] {
      var n := |roles|;
      var init := roles[..n - 1];
      UniqueKeys(init, posted, key);
      KeysOfSnoc(init, roles[n - 1]);
      KeysOfSnoc(UniqueRoles(init, posted), roles[n - 1]);
      assert roles == init + [roles[n - 1]];
    }
  }

  /** The kept roles have pairwise different keys, none of them already posted. */
  lemma {:induction false} UniqueDistinct(roles: seq<Posting>, posted: set<string>)
    ensures Distinct(KeysOf(UniqueRoles(roles, posted)))
    ensures forall k :: k in KeysOf(UniqueRoles(roles, posted)) ==> k !in posted
  {
    if roles != [] {
      var n := |roles|;
      var kept := UniqueRoles(roles[..n - 1], posted);
      UniqueDistinct(roles[..n - 1], posted);
      KeysOfSnoc(kept, roles[n - 1]);
      if KeyOf(roles[n - 1]) !in KeysOf(kept) {
        DistinctSnoc(KeysOf(kept), KeyOf(roles[n - 1]));
      }
    }
  }

  /** The kept roles keep their batch order. */
  lemma {:induction false} UniqueInOrder(roles: seq<Posting>, posted: set<string>) returns (idx: seq<nat>)
    ensures Picks(roles, UniqueRoles(roles, posted), idx)
  {
    if roles == [] {
      idx := [];
    } else {
      var n := |roles|;
      var before := UniqueInOrder(roles[..n - 1], posted);
      assert forall i :: 0 <= i < |before| ==> roles[..n - 1][before[i]] == roles[before[i]];
      if UniqueRoles(roles, posted) == UniqueRoles(roles[..n - 1], posted) {
        idx := before;
      } else {
        idx := before + [n - 1];
      }
    }
  }

  /** Every kept role is the first of its key in the batch, and that key was not posted. */
  lemma {:induction false} UniqueSound(roles: seq<Posting>, posted: set<string>, role: Posting)
    requires role in UniqueRoles(roles, posted)
    ensures exists i :: 0 <= i < |roles| && roles[i] == role && KeyOf(role) !in posted && FirstWithKey(roles, i)
  {
    var n := |roles|;
    var init := roles[..n - 1];
    if role in UniqueRoles(init, posted) {
      UniqueSound(init, posted, role);
      var i :| 0 <= i < n - 1 && init[i] == role && KeyOf(role) !in posted && FirstWithKey(init, i);
      assert forall j :: 0 <= j < i ==> init[j] == roles[j];
      assert FirstWithKey(roles, i);
    } else {
      assert role == roles[n - 1];
      UniqueKeys(init, posted, KeyOf(role));
      assert forall j :: 0 <= j < n - 1 ==> KeysOf(init)[j] == KeyOf(roles[j]);
      assert FirstWithKey(roles, n - 1);
    }
  }

  /** The first role of each key not yet posted is kept. */
  lemma {:induction false} UniqueComplete(roles: seq<Posting>, posted: set<string>, i: nat)
    requires i < |roles| && FirstWithKey(roles, i) && KeyOf(roles[i]) !in posted
    ensures roles[i] in UniqueRoles(roles, posted)
  {
    var n := |roles|;
    var init := roles[..n - 1];
    if i < n - 1 {
      assert init[i] == roles[i];
      assert FirstWithKey(init, i) by {
        assert forall j :: 0 <= j < i ==> init[j] == roles[j];
      }
      UniqueComplete(init, posted, i);
    } else {
      UniqueKeys(init, posted, KeyOf(roles[i]));
      assert KeyOf(roles[i]) !in KeysOf(init) by {
        assert forall j :: 0 <= j < n - 1 ==> KeysOf(init)[j] == KeyOf(roles[j]);
      }
    }
  }

  /** A role is kept exactly when it is the first of its key in the batch and its key was not posted. */
  lemma UniqueMember(roles: seq<Posting>, posted: set<string>, role: Posting)
    ensures role in UniqueRoles(roles, posted) <==>
      exists i :: 0 <= i < |roles| && roles[i] == role && KeyOf(role) !in posted && FirstWithKey(roles, i)
  {
    if role in UniqueRoles(roles, posted) {
      UniqueSound(roles, posted, role);
    }
    forall i | 0 <= i < |roles| && roles[i] == role && KeyOf(role) !in posted && FirstWithKey(roles, i)
      ensures role in UniqueRoles(roles, posted)
    {
      UniqueComplete(roles, posted, i);
    }
  }

  /** The dedup loop of send_new_roles, with `seen_jobs` holding the keys kept so far. */
  method Deduplicate(allRoles: seq<Posting>, posted: set<string>) returns (uniqueRoles: seq<Posting>)
    ensures uniqueRoles == UniqueRoles(allRoles, posted)
  {
    uniqueRoles := [];
    var seenJobs: set<string> := {};
    for i := 0 to |allRoles|
      invariant uniqueRoles == UniqueRoles(allRoles[..i], posted)
      invariant forall k :: k in seenJobs <==> k in KeysOf(uniqueRoles)
    {
      assert allRoles[..i + 1][..i] == allRoles[..i];
      var role := allRoles[i];
      var jobKey := KeyOf(role);
      if jobKey in seenJobs || jobKey in posted {
        continue;
      }
      KeysOfSnoc(uniqueRoles, role);
      seenJobs := seenJobs + {jobKey};
      uniqueRoles := uniqueRoles + [role];
    }
    assert allRoles[..|allRoles|] == allRoles;
  }

  function NotBlacklisted(blacklist: set<string>): Posting -> Option<Posting> {
    (role: Posting) => if role.company in blacklist then None else Some(role)
  }

  /** The unique roles the classify loop records: those whose company is not blacklisted, in order. */
  function Recorded(uniqueRoles: seq<Posting>, blacklist: set<string>): seq<Posting> {
    Collect(uniqueRoles, NotBlacklisted(blacklist))
  }

  /** A role is recorded exactly when it is unique and its company is not in the blacklist, by exact membership. */
  lemma RecordedMember(uniqueRoles: seq<Posting>, blacklist: set<string>, role: Posting)
    ensures role in Recorded(uniqueRoles, blacklist) <==> role in uniqueRoles && role.company !in blacklist
  {
    CollectMember(uniqueRoles, NotBlacklisted(blacklist), role);
  }

  /** Recording keeps the order of the unique roles, and so their keys stay distinct. */
  lemma RecordedInOrder(uniqueRoles: seq<Posting>, blacklist: set<string>) returns (idx: seq<nat>)
    ensures Picks(uniqueRoles, Recorded(uniqueRoles, blacklist), idx)
    ensures Distinct(KeysOf(uniqueRoles)) ==> Distinct(KeysOf(Recorded(uniqueRoles, blacklist)))
  {
    assert Filters(NotBlacklisted(blacklist));
    idx := CollectPicks(uniqueRoles, NotBlacklisted(blacklist));
    var recorded := Recorded(uniqueRoles, blacklist);
    if Distinct(KeysOf(uniqueRoles)) {
      forall i, j | 0 <= i < j < |uniqueRoles| ensures KeyOf(uniqueRoles[i]) != KeyOf(uniqueRoles[j]) {
        assert KeysOf(uniqueRoles)[i] != KeysOf(uniqueRoles)[j];
      }
      PicksDistinctBy(uniqueRoles, recorded, idx, KeyOf);
      forall i, j | 0 <= i < j < |recorded| ensures KeysOf(recorded)[i] != KeysOf(recorded)[j] {
        assert KeyOf(recorded[i]) != KeyOf(recorded[j]);
      }
    }
  }

  /** The companies of `roles`. */
  function CompaniesOf(roles: seq<Posting>): set<string> {
    set i | 0 <= i < |roles| :: roles[i].company
  }

  lemma CompaniesOfSnoc(roles: seq<Posting>, role: Posting)
    ensures CompaniesOf(roles + [role]) == CompaniesOf(roles) + {role.company}
  {
    var all := roles + [role];
    assert all[|roles|] == role;
    forall c | c in CompaniesOf(all) ensures c in CompaniesOf(roles) + {role.company} {
      var i :| 0 <= i < |all| && all[i].company == c;
      if i < |roles| {
        assert all[i] == roles[i];
      }
    }
    forall c | c in CompaniesOf(roles) ensures c in CompaniesOf(all) {
      var i :| 0 <= i < |roles| && roles[i].company == c;
      assert all[i] == roles[i];
    }
  }

  /** The `source` field of an announcement: "Wuzzuf" exactly for links on wuzzuf.net. */
  function SourceLabel(link: string): (source: string)
    ensures source == "Wuzzuf" <==> Contains(link, "wuzzuf.net")
    ensures source == "Wuzzuf" || source == "LinkedIn"
  {
    if Contains(link, "wuzzuf.net") then "Wuzzuf" else "LinkedIn"
  }

  /** What the announcement of one role tells: the role and its source. */
  datatype Notification = Notification(role: Posting, source: string)

  function NotificationsOf(roles: seq<Posting>): (notifications: seq<Notification>)
    ensures |notifications| == |roles|
  {
    seq(|roles|, i requires 0 <= i < |roles| => Notification(roles[i], SourceLabel(roles[i].link)))
  }

  lemma NotificationsOfSnoc(roles: seq<Posting>, role: Posting)
    ensures NotificationsOf(roles + [role]) == NotificationsOf(roles) + [Notification(role, SourceLabel(role.link))]
  {
    assert forall i :: 0 <= i < |roles| ==> NotificationsOf(roles + [role])[i] == NotificationsOf(roles)[i];
  }

  /**
   * The classify loop of send_new_roles over `posted` and the ledger: every unique role
   * whose company is not blacklisted has its key appended to `posted` and recorded at
   * `now`, its company collected and its announcement made.
   */
  method Classify(uniqueRoles: seq<Posting>, blacklist: set<string>, posted: seq<string>, stamps: seq<Stamp>, now: int)
    returns (companies: set<string>, newRolesCount: nat, notifications: seq<Notification>,
             newPosted: seq<string>, newStamps: seq<Stamp>)
    ensures newPosted == posted + KeysOf(Recorded(uniqueRoles, blacklist))
    ensures newStamps == StampAll(stamps, KeysOf(Recorded(uniqueRoles, blacklist)), now)
    ensures companies == CompaniesOf(Recorded(uniqueRoles, blacklist))
    ensures newRolesCount == |Recorded(uniqueRoles, blacklist)|
    ensures notifications == NotificationsOf(Recorded(uniqueRoles, blacklist))
  {
    companies := {};
    newRolesCount := 0;
    notifications := [];
    newPosted, newStamps := posted, stamps;
    ghost var recorded: seq<Posting> := [];
    for i := 0 to |uniqueRoles|
      invariant recorded == Recorded(uniqueRoles[..i], blacklist)
      invariant newPosted == posted + KeysOf(recorded)
      invariant newStamps == StampAll(stamps, KeysOf(recorded), now)
      invariant companies == CompaniesOf(recorded)
      invariant newRolesCount == |recorded|
      invariant notifications == NotificationsOf(recorded)
    {
      CollectSnoc(uniqueRoles, i, NotBlacklisted(blacklist));
      var role := uniqueRoles[i];
      if role.company in blacklist {
        continue;
      }
      var companyAndTitle := KeyOf(role);
      KeysOfSnoc(recorded, role);
      CompaniesOfSnoc(recorded, role);
      NotificationsOfSnoc(recorded, role);
      assert (KeysOf(recorded) + [companyAndTitle])[..|recorded|] == KeysOf(recorded);
      companies := companies + {role.company};
      newPosted := newPosted + [companyAndTitle];
      newStamps := SetStamp(newStamps, companyAndTitle, now);
      newRolesCount := newRolesCount + 1;
      notifications := notifications + [Notification(role, SourceLabel(role.link))];
      recorded := recorded + [role];
    }
    assert uniqueRoles[..|uniqueRoles|] == uniqueRoles;
  }

  /** The roles one cycle records on top of a cleaned ledger. */
  function CycleRecords(allRoles: seq<Posting>, ledger: seq<Stamp>, blacklist: set<string>): seq<Posting> {
    Recorded(UniqueRoles(allRoles, set j | j in JobsOf(ledger)), blacklist)
  }

  /**
   * Recording a cycle's roles appends their keys to a ledger with distinct keys, all with
   * the same time, and the keys stay distinct: `posted` keeps matching the ledger.
   */
  lemma CycleExtendsLedger(allRoles: seq<Posting>, ledger: seq<Stamp>, blacklist: set<string>, at: int)
    requires Distinct(JobsOf(ledger))
    ensures StampAll(ledger, KeysOf(CycleRecords(allRoles, ledger, blacklist)), at)
         == ledger + Stamped(KeysOf(CycleRecords(allRoles, ledger, blacklist)), at)
    ensures JobsOf(ledger + Stamped(KeysOf(CycleRecords(allRoles, ledger, blacklist)), at))
         == JobsOf(ledger) + KeysOf(CycleRecords(allRoles, ledger, blacklist))
    ensures Distinct(JobsOf(ledger) + KeysOf(CycleRecords(allRoles, ledger, blacklist)))
  {
    var posted := set j | j in JobsOf(ledger);
    var unique := UniqueRoles(allRoles, posted);
    var recorded := Recorded(unique, blacklist);
    var keys := KeysOf(recorded);
    UniqueDistinct(allRoles, posted);
    var _ := RecordedInOrder(unique, blacklist);
    forall k | k in keys ensures k !in JobsOf(ledger) {
      var i :| 0 <= i < |recorded| && keys[i] == k;
      RecordedMember(unique, blacklist, recorded[i]);
      var j :| 0 <= j < |unique| && unique[j] == recorded[i];
      assert KeysOf(unique)[j] == k;
      assert k in KeysOf(unique);
      assert k !in posted;
    }
    StampAllFresh(ledger, keys, at);
    JobsOfConcat(ledger, Stamped(keys, at));
    assert JobsOf(Stamped(keys, at)) == keys;
    var all := JobsOf(ledger) + keys;
    var m := |JobsOf(ledger)|;
    forall i, j | 0 <= i < j < |all| ensures all[i] != all[j] {
      if j < m {
        assert all[i] == JobsOf(ledger)[i] && all[j] == JobsOf(ledger)[j];
      } else if i >= m {
        assert all[i] == keys[i - m] && all[j] == keys[j - m];
      } else {
        assert all[i] == JobsOf(ledger)[i] && all[j] == keys[j - m];
        assert keys[j - m] in keys;
      }
    }
  }

  // ---------------------------------------------------------------------------
  // Blacklist commands

  /** `{ c for c in names }`. */
  function SetOf(names: seq<string>): set<string> {
    set c | c in names
  }

  lemma SetOfSnoc(names: seq<string>, i: nat)
    requires i < |names|
    ensures SetOf(names[..i + 1]) == SetOf(names[..i]) + {names[i]}
  {
    assert names[..i + 1] == names[..i] + [names[i]];
  }

  /** `names` visits every element of `s` once, as iterating over a set does, in some order. */
  ghost predicate Enumerates(names: seq<string>, s: set<string>) {
    Distinct(names) && forall c :: c in names <==> c in s
  }

  lemma EnumeratesEmpty(names: seq<string>, s: set<string>)
    requires Enumerates(names, s)
    ensures names == [] <==> s == {}
  {
    if names != [] {
      assert names[0] in s;
    }
    if s != {} {
      var c :| c in s;
      assert c in names;
    }
  }

  /** The text the confirmation loop accumulates: every name followed by ", ". */
  function Listing(names: seq<string>): (listing: string)
    ensures |listing| >= 2 * |names|
  {
    if names == [] then [] else Listing(names[..|names| - 1]) + names[|names| - 1] + ", "
  }

  lemma {:induction false} ListingJoin(names: seq<string>)
    requires names != []
    ensures Listing(names) == Join(names, ", ") + ", "
  {
    var n := |names|;
    if n > 1 {
      var init := names[..n - 1];
      ListingJoin(init);
      JoinSnoc(init, names[n - 1], ", ");
      assert init + [names[n - 1]] == names;
    }
  }

  /** The three texts of a confirmation: when nothing changed, and the framing of the list. */
  datatype Framing = Framing(nothing: string, lead: string, tail: string)

  function AddFraming(): Framing {
    Framing("No companies were added to the blacklist.", "Added ", " to the blacklist!")
  }

  function RemoveFraming(): Framing {
    Framing("No companies were removed from the blacklist.", "Removed ", " from the blacklist!")
  }

  /** Helper for CommandsReportNothingIff: each framing's lead and "nothing" text start with different letters. */
  lemma FramingsStart()
    ensures AddFraming().lead[0] == 'A' && AddFraming().nothing[0] == 'N'
    ensures RemoveFraming().lead[0] == 'R' && RemoveFraming().nothing[0] == 'N'
  {
  }

  /** Python's `s[:-2]`. */
  function DropLastTwo(s: string): string {
    if |s| >= 2 then s[..|s| - 2] else []
  }

  /** The confirmation built from the accumulated listing. */
  function Framed(listing: string, framing: Framing): string {
    if listing == [] then framing.nothing else framing.lead + DropLastTwo(listing) + framing.tail
  }

  /**
   * The confirmation for the companies `names`: the "nothing" text when there are none,
   * otherwise the names joined by ", " inside the framing.
   */
  lemma ConfirmationText(names: seq<string>, framing: Framing)
    ensures names == [] ==> Framed(Listing(names), framing) == framing.nothing
    ensures names != [] ==> Framed(Listing(names), framing) == framing.lead + Join(names, ", ") + framing.tail
  {
    if names != [] {
      ListingJoin(names);
      assert DropLastTwo(Listing(names)) == Join(names, ", ");
    }
  }

  /** `message` is the confirmation for the companies of `reported`, listed in some order. */
  ghost predicate Reports(message: string, reported: set<string>, framing: Framing) {
    exists names :: Enumerates(names, reported) && message == Framed(Listing(names), framing)
  }

  /**
   * A command reports "nothing" exactly when it changed nothing, for any framing whose
   * "nothing" text and list framing differ in their first character, as both commands' do.
   */
  lemma ReportsNothingIff(message: string, reported: set<string>, framing: Framing)
    requires framing.nothing != [] && framing.lead != [] && framing.lead[0] != framing.nothing[0]
    requires Reports(message, reported, framing)
    ensures message == framing.nothing <==> reported == {}
  {
    var names :| Enumerates(names, reported) && message == Framed(Listing(names), framing);
    ConfirmationText(names, framing);
    EnumeratesEmpty(names, reported);
    if names != [] {
      assert message == framing.lead + (Join(names, ", ") + framing.tail);
      assert message[0] == framing.lead[0];
    }
  }

  /** Both commands' confirmations say "nothing" exactly when the blacklist did not change. */
  lemma CommandsReportNothingIff(message: string, reported: set<string>)
    ensures Reports(message, reported, AddFraming()) ==> (message == AddFraming().nothing <==> reported == {})
    ensures Reports(message, reported, RemoveFraming()) ==> (message == RemoveFraming().nothing <==> reported == {})
  {
    FramingsStart();
    if Reports(message, reported, AddFraming()) {
      ReportsNothingIff(message, reported, AddFraming());
    }
    if Reports(message, reported, RemoveFraming()) {
      ReportsNothingIff(message, reported, RemoveFraming());
    }
  }

  /** `for company in companies: blacklist.add(company)`. */
  method AddAll(blacklist: set<string>, companies: seq<string>) returns (newBlacklist: set<string>)
    ensures newBlacklist == blacklist + SetOf(companies)
  {
    newBlacklist := blacklist;
    for i := 0 to |companies|
      invariant newBlacklist == blacklist + SetOf(companies[..i])
    {
      SetOfSnoc(companies, i);
      newBlacklist := newBlacklist + {companies[i]};
    }
    assert companies[..|companies|] == companies;
  }

  /** `for company in companies: blacklist.discard(company)`. */
  method DiscardAll(blacklist: set<string>, companies: seq<string>) returns (newBlacklist: set<string>)
    ensures newBlacklist == blacklist - SetOf(companies)
  {
    newBlacklist := blacklist;
    for i := 0 to |companies|
      invariant newBlacklist == blacklist - SetOf(companies[..i])
    {
      SetOfSnoc(companies, i);
      newBlacklist := newBlacklist - {companies[i]};
    }
    assert companies[..|companies|] == companies;
  }

  /** The confirmation loop over a set difference: each company followed by ", ", in some order. */
  method ListCompanies(reported: set<string>) returns (listing: string, ghost names: seq<string>)
    ensures Enumerates(names, reported) && listing == Listing(names)
  {
    listing, names := [], [];
    var remaining := reported;
    while remaining != {}
      invariant remaining <= reported
      invariant Distinct(names) && forall c :: c in names <==> c in reported - remaining
      invariant listing == Listing(names)
      decreases |remaining|
    {
      var company :| company in remaining;
      DistinctSnoc(names, company);
      assert (names + [company])[..|names|] == names;
      listing := listing + company + ", ";
      names := names + [company];
      remaining := remaining - {company};
    }
  }

  function BlacklistKeyword(): string { "!blacklist" }

  function UnblacklistKeyword(): string { "!unblacklist" }

  /** Helper for CommandRoundTrip: the command words are distinct, non-empty single lines. */
  lemma KeywordsOneLine()
    ensures BlacklistKeyword() != [] && NoLineBreak(BlacklistKeyword())
    ensures UnblacklistKeyword() != [] && NoLineBreak(UnblacklistKeyword())
    ensures BlacklistKeyword() != UnblacklistKeyword()
  {
    assert BlacklistKeyword() == ['!', 'b', 'l', 'a', 'c', 'k', 'l', 'i', 's', 't'];
    assert UnblacklistKeyword() == ['!', 'u', 'n', 'b', 'l', 'a', 'c', 'k', 'l', 'i', 's', 't'];
  }

  /** What `on_message` makes of a message. */
  datatype Command = Ignore | Blacklist(companies: seq<string>) | Unblacklist(companies: seq<string>)

  /**
   * The dispatch of `on_message`: messages by bots are ignored; the first line must be
   * exactly "!blacklist" or "!unblacklist", and the remaining lines are the company names
   * as they are. An empty message has no first line: `Fail` is the IndexError.
   */
  function CommandOf(authorIsBot: bool, content: string): (command: Result<Command>)
    ensures command.Fail? <==> !authorIsBot && content == []
    ensures authorIsBot ==> command == Ok(Ignore)
  {
    if authorIsBot then Ok(Ignore)
    else
      var lines := SplitLines(content);
      if lines == [] then Fail("list index out of range")
      else if lines[0] == BlacklistKeyword() then Ok(Blacklist(lines[1..]))
      else if lines[0] == UnblacklistKeyword() then Ok(Unblacklist(lines[1..]))
      else Ok(Ignore)
  }

  lemma KeywordLines(keyword: string, companies: seq<string>)
    requires keyword != [] && NoLineBreak(keyword)
    requires forall i :: 0 <= i < |companies| ==> companies[i] != [] && NoLineBreak(companies[i])
    ensures SplitLines(Join([keyword] + companies, "\n")) == [keyword] + companies
  {
    var lines := [keyword] + companies;
    forall i | 0 <= i < |lines| ensures lines[i] != [] && NoLineBreak(lines[i]) {
      if i > 0 {
        assert lines[i] == companies[i - 1];
      }
    }
    SplitLinesOfJoin(lines);
  }

  /**
   * A command written as its keyword line followed by one company per line is read back as
   * those companies, spaces and all. The lemma covers non-empty company lines only; Python
   * also passes an empty line in the middle to the handler, which this lemma leaves out.
   */
  lemma CommandRoundTrip(companies: seq<string>, add: bool)
    requires forall i :: 0 <= i < |companies| ==> companies[i] != [] && NoLineBreak(companies[i])
    ensures CommandOf(false, Join([if add then BlacklistKeyword() else UnblacklistKeyword()] + companies, "\n"))
         == Ok(if add then Blacklist(companies) else Unblacklist(companies))
  {
    var keyword := if add then BlacklistKeyword() else UnblacklistKeyword();
    KeywordsOneLine();
    KeywordLines(keyword, companies);
    assert ([keyword] + companies)[0] == keyword && ([keyword] + companies)[1..] == companies;
  }

  // ---------------------------------------------------------------------------
  // The configuration the bot keeps in memory between two saves

  /** The outcome of one cycle of send_new_roles, apart from the messages. */
  datatype Cycle = Cycle(
    jobsRemoved: nat,
    savedAfterCleaning: bool,
    notifications: seq<Notification>,
    companies: set<string>,
    newRolesCount: nat,
    savedAfterPosting: bool)

  /**
   * The bot's configuration: `blacklist`, `posted`, and `posted_with_timestamps` as an
   * ordered list of members with distinct jobs (`hasStamps` is false while the document
   * has no such member).
   */
  class Config {
    var blacklist: set<string>
    var posted: seq<string>
    var hasStamps: bool
    var stamps: seq<Stamp>

    ghost predicate Valid()
      reads this
    {
      Distinct(JobsOf(stamps))
    }

    constructor (blacklist: set<string>, posted: seq<string>, hasStamps: bool, stamps: seq<Stamp>)
      requires Distinct(JobsOf(stamps))
      ensures this.blacklist == blacklist && this.posted == posted
      ensures this.hasStamps == hasStamps && this.stamps == stamps
      ensures Valid()
    {
      this.blacklist := blacklist;
      this.posted := posted;
      this.hasStamps := hasStamps;
      this.stamps := stamps;
    }

    /** The configuration `get_config` creates when there is no file. */
    constructor Default()
      ensures blacklist == {} && posted == [] && hasStamps && stamps == []
      ensures Valid()
    {
      blacklist := {};
      posted := [];
      hasStamps := true;
      stamps := [];
    }

    /**
     * `clean_old_jobs`: migrate a legacy `posted` list when there is no ledger, drop the
     * members not later than the cutoff, rebuild `posted` from the ledger's keys, and
     * return how many members were removed.
     */
    method CleanOldJobs(now: int, daysToKeep: int) returns (jobsRemoved: nat)
      requires Valid()
      modifies this
      ensures Valid() && hasStamps
      ensures stamps == Cleaned(old(hasStamps), old(stamps), old(posted), now, daysToKeep)
      ensures posted == JobsOf(stamps)
      ensures jobsRemoved == |Migrated(old(hasStamps), old(stamps), old(posted), now)| - |stamps|
      ensures blacklist == old(blacklist)
    {
      ghost var start := Migrated(hasStamps, stamps, posted, now);
      if !hasStamps {
        var migrated := MigrateJobs(posted, now);
        hasStamps := true;
        stamps := migrated;
      }
      var cutoffTime := Cutoff(now, daysToKeep);
      var before := stamps;
      assert before == start;
      var jobsBefore := |before|;
      PrunedBounds(before, cutoffTime);
      stamps := Pruned(before, cutoffTime);
      var jobsAfter := |stamps|;
      jobsRemoved := jobsBefore - jobsAfter;
      posted := JobsOf(stamps);
      if jobsRemoved <= 0 {
        jobsRemoved := 0;
      }
      assert start == Migrated(old(hasStamps), old(stamps), old(posted), now);
    }

    /**
     * The classify loop of send_new_roles: every unique role whose company is not
     * blacklisted has its key appended to `posted` and recorded at `currentTime`, its
     * company collected and its announcement made.
     */
    method RecordNewRoles(uniqueRoles: seq<Posting>, currentTime: int)
      returns (companies: set<string>, newRolesCount: nat, notifications: seq<Notification>)
      requires Valid() && hasStamps
      modifies this
      ensures Valid()
      ensures posted == old(posted) + KeysOf(Recorded(uniqueRoles, blacklist))
      ensures stamps == StampAll(old(stamps), KeysOf(Recorded(uniqueRoles, blacklist)), currentTime)
      ensures companies == CompaniesOf(Recorded(uniqueRoles, blacklist))
      ensures newRolesCount == |Recorded(uniqueRoles, blacklist)|
      ensures notifications == NotificationsOf(Recorded(uniqueRoles, blacklist))
      ensures blacklist == old(blacklist) && hasStamps
    {
      var newPosted, newStamps;
      companies, newRolesCount, notifications, newPosted, newStamps := Classify(uniqueRoles, blacklist, posted, stamps, currentTime);
      StampAllDistinct(stamps, KeysOf(Recorded(uniqueRoles, blacklist)), currentTime);
      posted, stamps := newPosted, newStamps;
    }

    /**
     * The bookkeeping of one send_new_roles cycle over the scraped roles: clean the ledger
     * (saving when something was removed), dedup against the cleaned `posted`, record
     * and announce the roles of companies not blacklisted, and save when some were.
     * `now` is the clock `clean_old_jobs` reads before the scrape; `currentTime` is the
     * clock read after it, at which the new jobs are recorded.
     */
    method SendNewRoles(allRoles: seq<Posting>, now: int, currentTime: int, daysToKeep: int) returns (cycle: Cycle)
      requires Valid()
      modifies this
      ensures Valid() && hasStamps
      ensures cycle.savedAfterCleaning <==> cycle.jobsRemoved > 0
      ensures cycle.savedAfterPosting <==> cycle.companies != {}
      ensures
        var cleaned := Cleaned(old(hasStamps), old(stamps), old(posted), now, daysToKeep);
        var recorded := CycleRecords(allRoles, cleaned, old(blacklist));
        && cycle.jobsRemoved == |Migrated(old(hasStamps), old(stamps), old(posted), now)| - |cleaned|
        && stamps == cleaned + Stamped(KeysOf(recorded), currentTime)
        && posted == JobsOf(cleaned) + KeysOf(recorded)
        && cycle.notifications == NotificationsOf(recorded)
        && cycle.companies == CompaniesOf(recorded)
        && cycle.newRolesCount == |recorded|
      ensures posted == JobsOf(stamps) && Distinct(posted)
      ensures blacklist == old(blacklist)
    {
      var jobsRemoved := CleanOldJobs(now, daysToKeep);
      var savedAfterCleaning := jobsRemoved > 0;
      ghost var cleaned := stamps;
      var postedSet := set j | j in posted;
      var uniqueRoles := Deduplicate(allRoles, postedSet);
      var companies, newRolesCount, notifications := RecordNewRoles(uniqueRoles, currentTime);
      CycleExtendsLedger(allRoles, cleaned, blacklist, currentTime);
      ghost var keys := KeysOf(CycleRecords(allRoles, cleaned, blacklist));
      JobsOfConcat(cleaned, Stamped(keys, currentTime));
      cycle := Cycle(jobsRemoved, savedAfterCleaning, notifications, companies, newRolesCount, companies != {});
    }
  

    /**
     * `add_to_blacklist`: add every company, then confirm the companies that were not
     * listed before.
     */
    method AddToBlacklist(companies: seq<string>) returns (confirmation: string)
      modifies this
      ensures blacklist == old(blacklist) + SetOf(companies)
      ensures Reports(confirmation, blacklist - old(blacklist), AddFraming())
      ensures posted == old(posted) && hasStamps == old(hasStamps) && stamps == old(stamps)
    {
      var listed := blacklist;
      var newBlacklist := AddAll(listed, companies);
      var listing, names := ListCompanies(newBlacklist - listed);
      confirmation := Framed(listing, AddFraming());
      blacklist := newBlacklist;
    }

    /**
     * `remove_from_blacklist`: discard every company, then confirm the companies that were
     * listed before and are not any more.
     */
    method RemoveFromBlacklist(companies: seq<string>) returns (confirmation: string)
      modifies this
      ensures blacklist == old(blacklist) - SetOf(companies)
      ensures Reports(confirmation, old(blacklist) - blacklist, RemoveFraming())
      ensures posted == old(posted) && hasStamps == old(hasStamps) && stamps == old(stamps)
    {
      var listed := blacklist;
      var newBlacklist := DiscardAll(listed, companies);
      var listing, names := ListCompanies(listed - newBlacklist);
      confirmation := Framed(listing, RemoveFraming());
      blacklist := newBlacklist;
    }

    /** `on_message`: run the command a message holds; the outcome is the confirmation sent, if any. */
    method OnMessage(authorIsBot: bool, content: string) returns (outcome: Result<Option<string>>)
      modifies this
      ensures posted == old(posted) && hasStamps == old(hasStamps) && stamps == old(stamps)
      ensures match CommandOf(authorIsBot, content)
        case Fail(reason) => outcome == Fail(reason) && blacklist == old(blacklist)
        case Ok(Ignore) => outcome == Ok(None) && blacklist == old(blacklist)
        case Ok(Blacklist(companies)) =>
          && blacklist == old(blacklist) + SetOf(companies)
          && outcome.Ok? && outcome.value.Some?
          && Reports(outcome.value.value, blacklist - old(blacklist), AddFraming())
        case Ok(Unblacklist(companies)) =>
          && blacklist == old(blacklist) - SetOf(companies)
          && outcome.Ok? && outcome.value.Some?
          && Reports(outcome.value.value, old(blacklist) - blacklist, RemoveFraming())
    {
      var command := CommandOf(authorIsBot, content);
      match command
      case Fail(reason) =>
        outcome := Fail(reason);
      case Ok(Ignore) =>
        outcome := Ok(None);
      case Ok(Blacklist(companies)) =>
        var confirmation := AddToBlacklist(companies);
        outcome := Ok(Some(confirmation));
      case Ok(Unblacklist(companies)) =>
        var confirmation := RemoveFromBlacklist(companies);
        outcome := Ok(Some(confirmation));
    }
  }
}
