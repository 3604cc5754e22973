/** Group membership per tenant and user, with its string-keyed snapshot. */
module Membership {
  import opened Sorting
  import Text

  type Members = map<(string, string), set<string>>

  datatype Result<+T> = Ok(value: T) | Err(message: string)

  function GroupsOf(m: Members, tenant: string, user: string): set<string> {
    if (tenant, user) in m then m[(tenant, user)] else {}
  }

  function Add(m: Members, tenant: string, user: string, group: string): Members {
    m[(tenant, user) := GroupsOf(m, tenant, user) + {group}]
  }

  function Remove(m: Members, tenant: string, user: string, group: string): Members {
    if (tenant, user) in m then m[(tenant, user) := m[(tenant, user)] - {group}] else m
  }

  function Change(m: Members, tenant: string, user: string, group: string, change: string): Result<Members> {
    if user == "" || group == "" then Err("membership change requires user and group")
    else if change == "removed_from_group" then Ok(Remove(m, tenant, user, group))
    else if change == "added_to_group" then Ok(Add(m, tenant, user, group))
    else Err("unknown membership change_type: " + change)
  }

  // --- Snapshot encoding ----------------------------------------------------------

  /** Snapshot entries are keyed `tenant|user`. */
  function Encode(k: (string, string)): string {
    k.0 + "|" + k.1
  }

  /** `splitn(2, '|')`: what stands before and after the first bar, with empty strings for missing parts. */
  function Decode(key: string): (string, string) {
    if key == "" then ("", "")
    else if key[0] == '|' then ("", key[1..])
    else
      var (tenant, user) := Decode(key[1..]);
      ([key[0]] + tenant, user)
  }

  /** Entries without a tenant or without a user are skipped on import. */
  predicate Usable(key: string) {
    Decode(key).0 != "" && Decode(key).1 != ""
  }

  lemma {:induction false} DecodeInverse(key: string)
    ensures '|' !in Decode(key).0
    ensures Decode(key).1 != "" ==> Encode(Decode(key)) == key
  {
    if key != "" && key[0] != '|' {
      DecodeInverse(key[1..]);
    }
  }

  predicate Encodable(k: (string, string)) {
    k.0 != "" && k.1 != "" && '|' !in k.0
  }

  lemma {:induction false} EncodeInverse(k: (string, string))
    requires '|' !in k.0
    ensures Decode(Encode(k)) == k
    decreases |k.0|
  {
    if k.0 != "" {
      EncodeInverse((k.0[1..], k.1));
      assert Encode(k)[0] == k.0[0] && k.0[0] in k.0;
      assert Encode(k)[1..] == Encode((k.0[1..], k.1));
      assert k.0 == [k.0[0]] + k.0[1..];
    }
  }

  lemma KeyComesFrom(key: string)
    ensures Usable(key) ==> Encodable(Decode(key)) && Encode(Decode(key)) == key
    ensures forall k :: Encodable(k) && Encode(k) == key ==> k == Decode(key) && Usable(key)
  {
    DecodeInverse(key);
    forall k | Encodable(k) && Encode(k) == key ensures k == Decode(key) {
      EncodeInverse(k);
    }
  }

  type Snapshot = map<string, seq<string>>

  function ToSet(s: seq<string>): set<string> {
    set x | x in s
  }

  ghost predicate Writes(m: Members, k: (string, string), snap: Snapshot, key: string) {
    k in m && key in snap && Encode(k) == key && ToSet(snap[key]) == m[k]
  }

  /** What a snapshot of `m` can be: every user is written, and each entry comes from some user. */
  ghost predicate ExportOf(m: Members, snap: Snapshot) {
    && (forall k :: k in m ==> Encode(k) in snap)
    && (forall key :: key in snap ==> exists k :: Writes(m, k, snap, key))
  }

  /** Reading a snapshot back yields the entries whose key splits into a tenant and a user. */
  ghost predicate ImportOf(snap: Snapshot, m: Members) {
    && (forall k :: k in m <==> Encodable(k) && Encode(k) in snap)
    && (forall k :: k in m ==> m[k] == ToSet(snap[Encode(k)]))
  }

  lemma SameEntry(m: Members, snap: Snapshot, back: Members, k: (string, string))
    requires ExportOf(m, snap) && ImportOf(snap, back)
    requires forall k :: k in m ==> Encodable(k)
    ensures k in m <==> k in back
    ensures k in m ==> back[k] == m[k]
  {
    if k in m || k in back {
      var k' :| Writes(m, k', snap, Encode(k));
      KeyComesFrom(Encode(k));
    }
  }

  /** A snapshot brings everything back exactly when every tenant and user id can be told apart in the key. */
  lemma RoundTripIff(m: Members, snap: Snapshot, back: Members)
    requires ExportOf(m, snap) && ImportOf(snap, back)
    ensures back == m <==> forall k :: k in m ==> Encodable(k)
  {
    if forall k :: k in m ==> Encodable(k) {
      forall k ensures (k in m <==> k in back) && (k in m ==> back[k] == m[k]) {
        SameEntry(m, snap, back, k);
      }
    }
  }

  class InMemoryMembership {
    var users: Members

    constructor ()
      ensures users == map[]
    {
      users := map[];
    }

    method SetGroups(tenant: string, user: string, groups: seq<string>)
      modifies this
      ensures users == old(users)[(tenant, user) := ToSet(groups)]
    {
      users := users[(tenant, user) := ToSet(groups)];
    }

    method AddGroup(tenant: string, user: string, group: string)
      modifies this
      ensures users == Add(old(users), tenant, user, group)
    {
      var groups := if (tenant, user) in users then users[(tenant, user)] else {};
      users := users[(tenant, user) := groups + {group}];
    }

    method RemoveGroup(tenant: string, user: string, group: string)
      modifies this
      ensures users == Remove(old(users), tenant, user, group)
    {
      if (tenant, user) in users {
        users := users[(tenant, user) := users[(tenant, user)] - {group}];
      }
    }

    method ApplyChange(tenant: string, user: string, group: string, change: string) returns (ok: bool)
      modifies this
      ensures var r := Change(old(users), tenant, user, group, change);
              ok == r.Ok? && users == if r.Ok? then r.value else old(users)
    {
      if user == "" || group == "" {
        return false;
      }
      if change == "removed_from_group" {
        RemoveGroup(tenant, user, group);
        return true;
      }
      if change == "added_to_group" {
        AddGroup(tenant, user, group);
        return true;
      }
      return false;
    }

    /** Users are visited in an arbitrary order; their groups are written sorted. */
    method ExportSnapshot() returns (snap: Snapshot)
      ensures ExportOf(users, snap)
      ensures forall key :: key in snap ==> SortedBy(snap[key], Text.Le)
    {
      snap := map[];
      var todo := users.Keys;
      while todo != {}
        invariant todo <= users.Keys
        invariant forall k :: k in users && k !in todo ==> Encode(k) in snap
        invariant forall key :: key in snap ==> exists k :: Writes(users, k, snap, key)
        invariant forall key :: key in snap ==> SortedBy(snap[key], Text.Le)
        decreases todo
      {
        var k :| k in todo;
        todo := todo - {k};
        var groups := SortedGroups(users[k]);
        ghost var before := snap;
        snap := snap[Encode(k) := groups];
        forall key | key in snap ensures exists j :: Writes(users, j, snap, key) {
          if key == Encode(k) {
            assert Writes(users, k, snap, key);
          } else {
            var j :| Writes(users, j, before, key);
            assert Writes(users, j, snap, key);
          }
        }
      }
    }

    static method SortedGroups(groups: set<string>) returns (out: seq<string>)
      ensures ToSet(out) == groups && SortedBy(out, Text.Le)
    {
      var list: seq<string> := [];
      var todo := groups;
      while todo != {}
        invariant todo <= groups && forall x :: x in list <==> x in groups - todo
        decreases todo
      {
        var g :| g in todo;
        todo := todo - {g};
        list := list + [g];
        assert forall x :: x in list <==> x in groups - todo;
      }
      LeIsPreorder();
      SortSorted(list, Text.Le);
      out := Sort(list, Text.Le);
      forall g ensures g in out <==> g in list {
        assert g in out <==> g in multiset(out);
        assert g in list <==> g in multiset(list);
      }
    }

    method ImportSnapshot(snap: Snapshot)
      modifies this
      ensures ImportOf(snap, users)
    {
      users := map[];
      var todo := snap.Keys;
      while todo != {}
        invariant todo <= snap.Keys
        invariant forall k :: k in users <==> Encodable(k) && Encode(k) in snap && Encode(k) !in todo
        invariant forall k :: k in users ==> users[k] == ToSet(snap[Encode(k)])
        decreases todo
      {
        var key :| key in todo;
        KeyComesFrom(key);
        todo := todo - {key};
        if Usable(key) {
          users := users[Decode(key) := ToSet(snap[key])];
        }
      }
    }
  }

  lemma LeIsPreorder()
    ensures Preorder(Text.Le)
  {
    forall a: string, b: string ensures Text.Le(a, b) || Text.Le(b, a) {
      Text.LeTotal(a, b);
    }
    forall a: string, b: string, c: string | Text.Le(a, b) && Text.Le(b, c) ensures Text.Le(a, c) {
      Text.LeTransitive(a, b, c);
    }
  }
}
