/** The miner registry of the browser script: adding a miner after checking
    its address (`addMiner`, script.js:194-241) and removing one by id
    (`removeMiner`, script.js:243-257). The form fields, the `alert` and
    `confirm` dialogs and the clock are parameters. */
module Registry {
  import opened Wrappers
  import opened Text
  import opened Address
  import opened Records

  /** Why an add request was refused. */
  datatype AddError = EmptyAddress | InvalidAddress | DuplicateAddress

  /** The registry after an add request, and the refusal if there was one. */
  datatype AddOutcome = AddOutcome(miners: seq<Miner>, rejected: Option<AddError>)

  /** `miners.find(m => m.ip === ip)` finds a record. */
  predicate HasAddress(ms: seq<Miner>, ip: string) {
    exists i :: 0 <= i < |ms| && ms[i].ip == ip
  }

  /** No two records share an address. */
  predicate UniqueAddresses(ms: seq<Miner>) {
    forall i, j :: 0 <= i < j < |ms| ==> ms[i].ip != ms[j].ip
  }

  /** No two records share an id. */
  predicate UniqueIds(ms: seq<Miner>) {
    forall i, j :: 0 <= i < j < |ms| ==> ms[i].id != ms[j].id
  }

  /** Some record carries this id. */
  predicate HasId(ms: seq<Miner>, id: int) {
    exists i :: 0 <= i < |ms| && ms[i].id == id
  }

  /** The record a successful add appends: online, no failures, no cool-down,
      zeroed metrics and an empty chart. */
  function NewMiner(id: int, ip: string, name: string, addedAt: string): Miner {
    Miner(id, ip, name, Online, 0.0, 0, 0, 0.0, None, 0, 0, addedAt, 0, None, 0, EmptyHistory)
  }

  /** `addMiner()`: the address and name come from the form (both trimmed),
      the id from `Date.now()` and the creation stamp from the clock. */
  function AddMiner(ms: seq<Miner>, rawIp: string, rawName: string, now: int, addedAt: string): (r: AddOutcome)
    ensures var ip := JsTrim(rawIp);
      && (r.rejected == Some(EmptyAddress) <==> |ip| == 0)
      && (r.rejected == Some(InvalidAddress) <==> |ip| > 0 && !IsValidIP(ip))
      && (r.rejected == Some(DuplicateAddress) <==> IsValidIP(ip) && HasAddress(ms, ip))
      && (r.rejected.None? <==> IsValidIP(ip) && !HasAddress(ms, ip))
    ensures r.rejected.Some? ==> r.miners == ms
    ensures r.rejected.None? ==>
      var ip, name := JsTrim(rawIp), JsTrim(rawName);
      && |r.miners| == |ms| + 1 && r.miners[..|ms|] == ms
      && var m := r.miners[|ms|];
      && m.id == now && m.ip == ip && m.addedAt == addedAt
      && m.name == (if |name| > 0 then name else "Miner-" + ip)
      && m.status == Online && m.consecutiveFailures == 0 && m.nextRetryTime == 0
      && m.lastSuccessTime.None? && m.history == EmptyHistory
      && m.hashrate == 0.0 && m.shares == 0 && m.acceptedShares == 0
  {
    var ip := JsTrim(rawIp);
    var name := if |JsTrim(rawName)| > 0 then JsTrim(rawName) else "Miner-" + ip;
    if |ip| == 0 then AddOutcome(ms, Some(EmptyAddress))
    else if !IsValidIP(ip) then AddOutcome(ms, Some(InvalidAddress))
    else if HasAddress(ms, ip) then AddOutcome(ms, Some(DuplicateAddress))
    else AddOutcome(ms + [NewMiner(now, ip, name, addedAt)], None)
  }

  /** `miners.filter(m => m.id !== id)`. */
  function Without(ms: seq<Miner>, id: int): (r: seq<Miner>)
    ensures |r| <= |ms|
    ensures forall m :: m in r <==> m in ms && m.id != id
    decreases |ms|
  {
    if |ms| == 0 then []
    else
      var rest := Without(ms[1..], id);
      assert ms == [ms[0]] + ms[1..];
      if ms[0].id == id then rest else [ms[0]] + rest
  }

  /** `removeMiner(id)`; `confirmed` is the answer to the confirmation
      dialog, and a refusal leaves the registry as it was. */
  function RemoveMiner(ms: seq<Miner>, id: int, confirmed: bool): (r: seq<Miner>)
    ensures !confirmed ==> r == ms
    ensures confirmed ==> !HasId(r, id)
    ensures forall m :: m in r <==> m in ms && (confirmed ==> m.id != id)
  {
    if confirmed then
      var r := Without(ms, id);
      assert forall i :: 0 <= i < |r| ==> r[i] in r;
      r
    else ms
  }

  /** Removal works piecewise: filtering a concatenation filters each part and
      keeps the parts in order, so the surviving records keep their original
      relative order. */
  lemma {:induction false} WithoutConcat(a: seq<Miner>, b: seq<Miner>, id: int)
    ensures Without(a + b, id) == Without(a, id) + Without(b, id)
    decreases |a|
  {
    if |a| > 0 {
      var t := a[1..];
      assert (a + b)[0] == a[0] && (a + b)[1..] == t + b;
      WithoutConcat(t, b, id);
      assert Without(a + b, id) == (if a[0].id == id then [] else [a[0]]) + Without(t + b, id);
      assert Without(a, id) == (if a[0].id == id then [] else [a[0]]) + Without(t, id);
    } else {
      assert a + b == b;
    }
  }

  /** Removing an id no record carries changes nothing. */
  lemma {:induction false} WithoutAbsent(ms: seq<Miner>, id: int)
    requires !HasId(ms, id)
    ensures Without(ms, id) == ms
    decreases |ms|
  {
    if |ms| > 0 {
      WithoutAbsent(ms[1..], id);
      assert ms[0].id != id;
      assert ms == [ms[0]] + ms[1..];
    }
  }

  /** Removing a freshly added miner by its id restores the registry, provided
      the clock reading used as id was not already an id. */
  lemma AddThenRemove(ms: seq<Miner>, rawIp: string, rawName: string, now: int, addedAt: string)
    requires !HasId(ms, now)
    ensures RemoveMiner(AddMiner(ms, rawIp, rawName, now, addedAt).miners, now, true) == ms
  {
    var r := AddMiner(ms, rawIp, rawName, now, addedAt);
    WithoutAbsent(ms, now);
    if r.rejected.None? {
      assert r.miners == ms + [r.miners[|ms|]];
      WithoutConcat(ms, [r.miners[|ms|]], now);
      assert Without([r.miners[|ms|]], now) == [];
    }
  }

  /** Adding keeps addresses unique, and keeps ids unique when the clock
      reading is not already an id (the source does not check ids). */
  lemma AddPreservesUniqueness(ms: seq<Miner>, rawIp: string, rawName: string, now: int, addedAt: string)
    requires UniqueAddresses(ms)
    ensures UniqueAddresses(AddMiner(ms, rawIp, rawName, now, addedAt).miners)
    ensures UniqueIds(ms) && !HasId(ms, now) ==> UniqueIds(AddMiner(ms, rawIp, rawName, now, addedAt).miners)
  {
    var r := AddMiner(ms, rawIp, rawName, now, addedAt);
    if r.rejected.None? {
      forall i, j | 0 <= i < j < |r.miners| ensures r.miners[i].ip != r.miners[j].ip {
        if j == |ms| {
          assert r.miners[i] == ms[i];
        } else {
          assert r.miners[i] == ms[i] && r.miners[j] == ms[j];
        }
      }
      if UniqueIds(ms) && !HasId(ms, now) {
        forall i, j | 0 <= i < j < |r.miners| ensures r.miners[i].id != r.miners[j].id {
          if j == |ms| {
            assert r.miners[i] == ms[i];
          } else {
            assert r.miners[i] == ms[i] && r.miners[j] == ms[j];
          }
        }
      }
    }
  }

  /** Removal keeps addresses and ids unique. */
  lemma {:induction false} WithoutPreservesUniqueness(ms: seq<Miner>, id: int)
    ensures UniqueAddresses(ms) ==> UniqueAddresses(Without(ms, id))
    ensures UniqueIds(ms) ==> UniqueIds(Without(ms, id))
    decreases |ms|
  {
    if |ms| > 0 {
      WithoutPreservesUniqueness(ms[1..], id);
      var rest := Without(ms[1..], id);
      if UniqueAddresses(ms) {
        assert UniqueAddresses(ms[1..]) by {
          forall i, j | 0 <= i < j < |ms[1..]| ensures ms[1..][i].ip != ms[1..][j].ip {
            assert ms[1..][i] == ms[i + 1] && ms[1..][j] == ms[j + 1];
          }
        }
        forall m | m in rest ensures m.ip != ms[0].ip {
          var k :| 1 <= k < |ms| && ms[k] == m;
        }
        UniqueCons(ms[0], rest);
      }
      if UniqueIds(ms) {
        assert UniqueIds(ms[1..]) by {
          forall i, j | 0 <= i < j < |ms[1..]| ensures ms[1..][i].id != ms[1..][j].id {
            assert ms[1..][i] == ms[i + 1] && ms[1..][j] == ms[j + 1];
          }
        }
        forall m | m in rest ensures m.id != ms[0].id {
          var k :| 1 <= k < |ms| && ms[k] == m;
        }
        UniqueCons(ms[0], rest);
      }
    }
  }

  /** Prepending a record whose address and id differ from every other one. */
  lemma UniqueCons(m: Miner, rest: seq<Miner>)
    ensures UniqueAddresses(rest) && (forall x :: x in rest ==> x.ip != m.ip) ==> UniqueAddresses([m] + rest)
    ensures UniqueIds(rest) && (forall x :: x in rest ==> x.id != m.id) ==> UniqueIds([m] + rest)
  {
    var s := [m] + rest;
    if UniqueAddresses(rest) && (forall x :: x in rest ==> x.ip != m.ip) {
      forall i, j | 0 <= i < j < |s| ensures s[i].ip != s[j].ip {
        assert s[j] == rest[j - 1];
        if i > 0 {
          assert s[i] == rest[i - 1];
        }
      }
    }
    if UniqueIds(rest) && (forall x :: x in rest ==> x.id != m.id) {
      forall i, j | 0 <= i < j < |s| ensures s[i].id != s[j].id {
        assert s[j] == rest[j - 1];
        if i > 0 {
          assert s[i] == rest[i - 1];
        }
      }
    }
  }
}
