// The cache of open table readers: pinned readers stay open, and every reader is closed once.
module TableCache {

  /** An open reader and who is using it; closes counts the calls of its Close. */
  class Entry {
    const fileID: nat
    var refs: nat
    var deleted: bool
    var closes: nat

    constructor (fileID: nat)
      ensures this.fileID == fileID && refs == 0 && !deleted && closes == 0
    {
      this.fileID := fileID;
      refs, deleted, closes := 0, false, 0;
    }
  }

  /**
   * Each method is what one holder of the lock does. Closing a reader happens after the lock is given
   * up, as a step of its own (Finish), so any other call can come in between.
   */
  class Cache {
    const cap: nat
    var entries: map<nat, Entry>
    /** Most recently used first. */
    var lru: seq<Entry>
    /** Every reader that was ever registered, and those about to be closed outside the lock. */
    ghost var all: set<Entry>
    ghost var closing: set<Entry>

    ghost predicate Registered(e: Entry)
      reads this
    {
      e.fileID in entries && entries[e.fileID] == e
    }

    /** A reader is closed at most once, only when no longer registered and unpinned; then it is closed or about to be. */
    ghost predicate EntryOk(e: Entry)
      reads this, e
    {
      && (Registered(e) ==> !e.deleted && e.closes == 0 && e !in closing)
      && (e.refs > 0 ==> e.closes == 0 && e !in closing && (Registered(e) || e.deleted))
      && (!Registered(e) && e.refs == 0 ==> e.closes == if e in closing then 0 else 1)
    }

    ghost predicate Valid()
      reads this, all
    {
      && cap > 0 && closing <= all
      && (forall id :: id in entries ==> entries[id] in all && entries[id].fileID == id)
      && (forall e :: e in all ==> EntryOk(e))
      && (forall e :: e in lru ==> e in all && Registered(e)) && (forall e :: e in all && Registered(e) ==> e in lru)
      && (forall i, j :: 0 <= i < j < |lru| ==> lru[i] != lru[j])
    }

    constructor (cap: int)
      ensures Valid() && all == {} && closing == {} && entries == map[]
      ensures this.cap == if cap <= 0 then 1000 else cap
    {
      this.cap := if cap <= 0 then 1000 else cap;
      entries, lru := map[], [];
      all, closing := {}, {};
    }

    /** The least recently used reader nobody has pinned. */
    method Victim() returns (k: int)
      requires Valid()
      ensures -1 <= k < |lru|
      ensures k >= 0 ==> lru[k].refs == 0 && forall i :: k < i < |lru| ==> lru[i].refs > 0
      ensures k < 0 ==> forall i :: 0 <= i < |lru| ==> lru[i].refs > 0
    {
      k := |lru| - 1;
      while k >= 0
        invariant -1 <= k < |lru|
        invariant forall i :: k < i < |lru| ==> lru[i].refs > 0
      {
        assert lru[k] in lru;
        if lru[k].refs == 0 && !lru[k].deleted {
          return;
        }
        k := k - 1;
      }
    }

    /** Takes a reader out of the map and the list, marking it if it may still be pinned. */
    method Remove(k: nat, mark: bool)
      requires Valid() && k < |lru| && (mark || lru[k].refs == 0)
      modifies `entries, `lru, `closing, lru[k]
      ensures Valid()
      ensures entries == old(entries) - {old(lru)[k].fileID} && lru == old(lru)[..k] + old(lru)[k + 1..]
      ensures closing == old(closing) + if old(lru[k].refs) == 0 then {old(lru)[k]} else {}
      ensures old(lru)[k].refs == old(lru[k].refs) && old(lru)[k].closes == old(lru[k].closes)
    {
      var e := lru[k];
      assert e in lru && EntryOk(e);
      entries := entries - {e.fileID};
      lru := lru[..k] + lru[k + 1..];
      e.deleted := e.deleted || mark;
      if e.refs == 0 {
        closing := closing + {e};
      }
      Removed(old(lru), k);
      forall x | x in all
        ensures EntryOk(x) && (x != e ==> (Registered(x) <==> old(Registered(x))))
      {
        assert old(EntryOk(x));
      }
    }

    /** Drops an unpinned reader from the cache and closes it, still under the lock. */
    method Evict(k: nat)
      requires Valid() && k < |lru| && lru[k].refs == 0
      modifies `entries, `lru, `closing, lru[k]
      ensures Valid() && closing == old(closing)
      ensures entries == old(entries) - {old(lru)[k].fileID} && lru == old(lru)[..k] + old(lru)[k + 1..]
      ensures old(lru)[k].closes == 1 && old(lru)[k].refs == 0
    {
      var e := lru[k];
      assert e in lru && EntryOk(e);
      Remove(k, false);
      Finish(e);
    }

    method Insert(e: Entry)
      requires Valid() && e !in all && e.refs == 0 && !e.deleted && e.closes == 0 && e.fileID !in entries
      modifies `entries, `lru, `all
      ensures Valid() && all == old(all) + {e} && Registered(e) && lru == [e] + old(lru)
    {
      lru := [e] + lru;
      entries := entries[e.fileID := e];
      all := all + {e};
      forall x | x in all
        ensures EntryOk(x) && (x != e ==> (Registered(x) <==> old(Registered(x))))
      {
        assert x != e ==> old(EntryOk(x));
      }
    }

    /** register, with the reader already opened. At capacity the victim makes room, if there is one. */
    method Register(e: Entry)
      requires Valid() && e !in all && e.refs == 0 && !e.deleted && e.closes == 0
      modifies this, all, e
      ensures Valid() && closing == old(closing)
      ensures old(e.fileID in entries) ==> e.closes == 1 && entries == old(entries) && all == old(all)
      ensures !old(e.fileID in entries) ==> all == old(all) + {e} && Registered(e) && lru != [] && lru[0] == e
      ensures forall x :: x in old(all) ==> x.refs == old(x.refs) && (x.refs > 0 ==> x.closes == old(x.closes))
      ensures forall x :: x in old(all) && x.closes != old(x.closes) ==>
                && !old(e.fileID in entries) && old(|entries|) >= cap
                && exists k :: 0 <= k < |old(lru)| && old(lru)[k] == x && forall i :: k < i < |old(lru)| ==> old(lru)[i].refs > 0
      ensures !old(e.fileID in entries) && old(|entries|) >= cap ==> forall i :: 0 <= i < |old(lru)| && old(lru)[i].refs == 0 ==>
                exists x :: x in old(all) && old(x.closes) == 0 && x.closes == 1
    {
      hide Valid, EntryOk;
      if e.fileID in entries {
        Discard(e);
        return;
      }
      if |entries| >= cap {
        var k := Victim();
        if k >= 0 {
          ListedIsOurs(k);
          ghost var victim := lru[k];
          Evict(k);
          assert victim in old(all) && old(victim.closes) == 0 && victim.closes == 1;
        }
      }
      Insert(e);
    }

    /** The reader opened for a file that is already registered. */
    method Discard(e: Entry)
      requires Valid() && e !in all
      modifies e
      ensures Valid() && e.closes == 1
    {
      e.closes := 1;
    }

    lemma ListedIsOurs(k: nat)
      requires Valid() && k < |lru|
      ensures lru[k] in all && lru[k].closes == 0
    {
      assert lru[k] in lru;
    }

    /** get: pins the reader and moves it to the front. */
    method Get(fileID: nat) returns (r: Entry?)
      requires Valid()
      modifies `lru, all
      ensures Valid()
      ensures r == null <==> fileID !in entries
      ensures r != null ==> r == entries[fileID] && r.refs == old(r.refs) + 1 && r.closes == 0 && lru != [] && lru[0] == r
      ensures forall x :: x in all ==> x.closes == old(x.closes) && (x != r ==> x.refs == old(x.refs))
    {
      if fileID !in entries || entries[fileID].deleted {
        return null;
      }
      r := entries[fileID];
      Pin(r);
      var k := Position(r);
      MoveToFront(k);
    }

    method Pin(e: Entry)
      requires Valid() && e in all && Registered(e)
      modifies e`refs
      ensures Valid() && e.refs == old(e.refs) + 1
    {
      e.refs := e.refs + 1;
      forall x | x in all
        ensures EntryOk(x)
      {
        assert old(EntryOk(x));
      }
    }

    method MoveToFront(k: nat)
      requires Valid() && k < |lru|
      modifies `lru
      ensures Valid() && lru == [old(lru)[k]] + (old(lru)[..k] + old(lru)[k + 1..])
    {
      hide EntryOk;
      Removed(lru, k);
      assert lru[k] in lru;
      lru := [lru[k]] + (lru[..k] + lru[k + 1..]);
      assert forall x :: x in all ==> old(EntryOk(x)) && EntryOk(x) == old(EntryOk(x)) by {
        EntriesAlone();
      }
    }

    twostate lemma EntriesAlone()
      requires old(Valid()) && entries == old(entries) && closing == old(closing) && all == old(all)
      requires unchanged(all)
      ensures forall x :: x in all ==> old(EntryOk(x)) && EntryOk(x)
    {
    }

    method Position(e: Entry) returns (k: nat)
      requires e in lru
      ensures k < |lru| && lru[k] == e
    {
      k := 0;
      while lru[k] != e
        invariant k < |lru| && e in lru[k..]
        decreases |lru| - k
      {
        assert lru[k..] == [lru[k]] + lru[k + 1..];
        k := k + 1;
      }
    }

    /** The release function of a get; the caller holds a pin. */
    method Release(e: Entry) returns (shouldClose: bool)
      requires Valid() && e in all && e.refs > 0
      modifies e, `closing
      ensures Valid() && e.refs == old(e.refs) - 1 && e.closes == old(e.closes) == 0
      ensures shouldClose <==> e.refs == 0 && !Registered(e)
      ensures closing == old(closing) + if shouldClose then {e} else {}
    {
      e.refs := e.refs - 1;
      shouldClose := e.deleted && e.refs == 0;
      if shouldClose {
        closing := closing + {e};
      }
    }

    /** unregister: no one can get the reader any more; it is closed now or by the last release. */
    method Unregister(fileID: nat) returns (r: Entry?)
      requires Valid()
      modifies this, all
      ensures Valid() && all == old(all) && entries == old(entries) - {fileID}
      ensures r != null <==> fileID in old(entries) && old(entries)[fileID].refs == 0
      ensures r != null ==> r == old(entries)[fileID]
      ensures closing == old(closing) + if r == null then {} else {r}
      ensures forall x :: x in all ==> x.refs == old(x.refs) && x.closes == old(x.closes)
    {
      hide EntryOk;
      if fileID !in entries {
        return null;
      }
      var e := entries[fileID];
      var k := Position(e);
      Remove(k, true);
      r := if e.refs == 0 then e else null;
    }

    /** The Close a release or an unregister owes, after the lock was given up. */
    method Finish(e: Entry)
      requires Valid() && e in closing
      modifies e, `closing
      ensures Valid() && e.refs == 0 && old(e.closes) == 0 && e.closes == 1 && closing == old(closing) - {e}
    {
      assert e in all && EntryOk(e);
      e.closes := e.closes + 1;
      closing := closing - {e};
    }

    /** close, once no reader is in use. */
    method CloseAll()
      requires Valid() && forall e :: e in all ==> e.refs == 0
      modifies this, all
      ensures Valid() && entries == map[] && all == old(all)
      ensures forall e :: e in all && e !in closing ==> e.closes == 1
    {
      while entries != map[]
        invariant Valid() && all == old(all) && forall e :: e in all ==> e.refs == 0
        decreases |lru|
      {
        var id :| id in entries;
        var k := Position(entries[id]);
        Evict(k);
      }
    }
  }

  /** Taking one element out of a list without repetitions. */
  lemma Removed(s: seq<Entry>, k: nat)
    requires k < |s| && forall i, j :: 0 <= i < j < |s| ==> s[i] != s[j]
    ensures var r := s[..k] + s[k + 1..];
            && (forall e :: e in r <==> e in s && e != s[k])
            && (forall i, j :: 0 <= i < j < |r| ==> r[i] != r[j])
  {
    var r := s[..k] + s[k + 1..];
    assert forall i :: 0 <= i < |r| ==> r[i] == if i < k then s[i] else s[i + 1];
    forall e | e in s && e != s[k]
      ensures e in r
    {
      var i :| 0 <= i < |s| && s[i] == e;
      assert r[if i < k then i else i - 1] == e;
    }
  }
}
