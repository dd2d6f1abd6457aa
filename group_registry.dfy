/**
 * The group settings: named groups of endpoints kept in the session, and
 * the save button's rule that a group needs a name and at least one member.
 */
module GroupRegistry {
  import opened Series

  class Registry {
    var groups: map<string, seq<Endpoint>>

    /** Every group has a name and at least one member. */
    ghost predicate Valid()
      reads this
    {
      forall name :: name in groups ==> name != "" && groups[name] != []
    }

    /** The groups loaded at the first visit of the page. */
    constructor (loaded: map<string, seq<Endpoint>>)
      ensures groups == loaded
    {
      groups := loaded;
    }

    /**
     * The save button: with a non-empty name and at least one selected
     * endpoint the group is stored (replacing one of the same name);
     * otherwise nothing changes and the page shows an error.
     */
    method Save(name: string, members: seq<Endpoint>) returns (saved: bool)
      modifies this
      ensures saved <==> name != "" && members != []
      ensures groups == if saved then old(groups)[name := members] else old(groups)
      ensures old(Valid()) ==> Valid()
    {
      saved := name != "" && members != [];
      if saved {
        groups := groups[name := members];
      }
    }
  }
}
