/** Data/DataSeeder.cs: role seeding at start-up. The identity role store is an object
    holding the role names; seeding walks the three application roles and creates each one
    the store does not have yet. */
module DataSeeder {

  /** The application roles, in the order they are seeded. */
  const RoleNames: seq<string> := ["Admin", "Seller", "Customer"]

  /** The role list after creating, in order, each of `names` that is missing. */
  function SeededFrom(roles: seq<string>, names: seq<string>): (r: seq<string>)
    decreases |names|
  {
    if |names| == 0 then roles
    else
      var before := SeededFrom(roles, names[..|names| - 1]);
      if names[|names| - 1] in before then before else before + [names[|names| - 1]]
  }

  /** Seeding only appends: existing roles keep their places, and every new role is one of
      the names. */
  lemma {:induction false} SeedingAppends(roles: seq<string>, names: seq<string>)
    ensures |roles| <= |SeededFrom(roles, names)|
    ensures SeededFrom(roles, names)[..|roles|] == roles
    ensures forall x :: x in SeededFrom(roles, names) ==> x in roles || x in names
    decreases |names|
  {
    if |names| > 0 {
      var init := names[..|names| - 1];
      SeedingAppends(roles, init);
      var before := SeededFrom(roles, init);
      if names[|names| - 1] !in before {
        assert (before + [names[|names| - 1]])[..|roles|] == before[..|roles|];
      }
      forall x | x in init
        ensures x in names
      {
        var i :| 0 <= i < |init| && init[i] == x;
        assert names[i] == x;
      }
    }
  }

  /** After seeding, every name is a role. */
  lemma {:induction false} SeedingCovers(roles: seq<string>, names: seq<string>)
    ensures forall x :: x in names ==> x in SeededFrom(roles, names)
    decreases |names|
  {
    if |names| > 0 {
      var init := names[..|names| - 1];
      SeedingCovers(roles, init);
      forall x | x in names
        ensures x in SeededFrom(roles, names)
      {
        var i :| 0 <= i < |names| && names[i] == x;
        if i < |names| - 1 {
          assert init[i] == x;
        }
      }
    }
  }

  /** A store that already has every name is left as it is. */
  lemma {:induction false} SeedingPresentIsNoop(roles: seq<string>, names: seq<string>)
    requires forall x :: x in names ==> x in roles
    ensures SeededFrom(roles, names) == roles
    decreases |names|
  {
    if |names| > 0 {
      var init := names[..|names| - 1];
      forall x | x in init
        ensures x in roles
      {
        var i :| 0 <= i < |init| && init[i] == x;
        assert names[i] == x;
      }
      SeedingPresentIsNoop(roles, init);
    }
  }

  /** Seeding twice gives the store seeding once gives. */
  lemma SeedingIdempotent(roles: seq<string>, names: seq<string>)
    ensures SeededFrom(SeededFrom(roles, names), names) == SeededFrom(roles, names)
  {
    SeedingCovers(roles, names);
    SeedingPresentIsNoop(SeededFrom(roles, names), names);
  }

  predicate NoDuplicates(s: seq<string>)
  {
    forall i, j :: 0 <= i < j < |s| ==> s[i] != s[j]
  }

  /** A role that already exists is not created again: a store without duplicates stays
      without duplicates. */
  lemma {:induction false} SeedingAddsNoDuplicate(roles: seq<string>, names: seq<string>)
    requires NoDuplicates(roles)
    ensures NoDuplicates(SeededFrom(roles, names))
    decreases |names|
  {
    if |names| > 0 {
      SeedingAddsNoDuplicate(roles, names[..|names| - 1]);
    }
  }

  /** The identity role store. */
  class RoleStore {
    var roles: seq<string>

    constructor (initial: seq<string>)
      ensures roles == initial
    {
      roles := initial;
    }

    /** `RoleExistsAsync`. */
    predicate RoleExists(name: string)
      reads this
    {
      name in roles
    }

    /** `SeedRolesAsync`. */
    method SeedRoles()
      modifies this
      ensures roles == SeededFrom(old(roles), RoleNames)
      ensures forall x :: x in RoleNames ==> x in roles
      ensures |old(roles)| <= |roles| && roles[..|old(roles)|] == old(roles)
    {
      ghost var initial := roles;
      for i := 0 to |RoleNames|
        invariant roles == SeededFrom(initial, RoleNames[..i])
      {
        assert RoleNames[..i + 1][..i] == RoleNames[..i];
        if !RoleExists(RoleNames[i]) {
          roles := roles + [RoleNames[i]];
        }
      }
      assert RoleNames[..|RoleNames|] == RoleNames;
      SeedingCovers(initial, RoleNames);
      SeedingAppends(initial, RoleNames);
    }
  }
}
