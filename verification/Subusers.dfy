/** The subuser diff: which subusers to create and which to remove.  A map from
    names to tags is filled with the wanted names and then toggled by every entry
    of Ceph's list. */
module Subusers {
  import opened Naming
  import opened Store

  datatype Tag = Create | Remove

  function Named(id: string, desired: seq<string>): set<string> {
    set s | s in desired :: SubuserFullId(id, s)
  }

  /** The Ceph names that a user with these subusers should have. */
  function Wanted(id: string, desired: seq<string>): set<string> {
    Named(id, desired) + {SubuserFullId(id, READONLY)}
  }

  function AllCreate(names: set<string>): map<string, Tag> {
    map name | name in names :: Create
  }

  lemma NamedGrows(id: string, desired: seq<string>, s: string)
    ensures Named(id, desired + [s]) == Named(id, desired) + {SubuserFullId(id, s)}
    ensures AllCreate(Named(id, desired + [s])) == AllCreate(Named(id, desired))[SubuserFullId(id, s) := Create]
  {
    forall name ensures name in Named(id, desired + [s]) <==> name in Named(id, desired) + {SubuserFullId(id, s)} {
      if name in Named(id, desired) {
        var x :| x in desired && SubuserFullId(id, x) == name;
        assert x in desired + [s];
      }
      assert s in desired + [s];
    }
  }

  function Toggle(tags: map<string, Tag>, name: string): map<string, Tag> {
    if name in tags then tags - {name} else tags[name := Remove]
  }

  function Diff(wanted: set<string>, current: seq<string>): map<string, Tag> {
    if current == [] then AllCreate(wanted)
    else Toggle(Diff(wanted, current[..|current| - 1]), current[|current| - 1])
  }

  /** How often a name occurs in a list. */
  function Occurrences(s: seq<string>, x: string): (n: nat)
    ensures n > 0 <==> x in s
  {
    if s == [] then 0
    else
      assert s == s[..|s| - 1] + [s[|s| - 1]];
      Occurrences(s[..|s| - 1], x) + (if s[|s| - 1] == x then 1 else 0)
  }

  /** The tag of a name in the diff, on arbitrary lists: it depends on whether
      the name is wanted and on how often Ceph lists it. */
  function TagOf(wanted: bool, occurrences: nat): Option<Tag> {
    if occurrences == 0 then (if wanted then Some(Create) else None)
    else if (occurrences % 2 == 0) == wanted then Some(Remove)
    else None
  }

  function Lookup(tags: map<string, Tag>, name: string): Option<Tag> {
    if name in tags then Some(tags[name]) else None
  }

  lemma {:induction false} DiffLaw(wanted: set<string>, current: seq<string>, name: string)
    ensures Lookup(Diff(wanted, current), name) == TagOf(name in wanted, Occurrences(current, name))
  {
    if current != [] {
      DiffLaw(wanted, current[..|current| - 1], name);
    }
  }

  lemma {:induction false} OccurrencesNoDup(s: seq<string>, x: string)
    requires NoDup(s)
    ensures Occurrences(s, x) == if x in s then 1 else 0
  {
    if s != [] {
      OccurrencesNoDup(s[..|s| - 1], x);
      assert s == s[..|s| - 1] + [s[|s| - 1]];
    }
  }

  /** For a list without duplicates, which is what Ceph returns, the diff is
      exactly the two set differences. */
  lemma DiffIsSetDifference(wanted: set<string>, current: seq<string>)
    requires NoDup(current)
    ensures Diff(wanted, current).Keys == (wanted - (set s | s in current)) + ((set s | s in current) - wanted)
    ensures forall name | name in Diff(wanted, current) ::
              Diff(wanted, current)[name] == if name in wanted then Create else Remove
  {
    forall name
      ensures Lookup(Diff(wanted, current), name)
           == if name in wanted && name !in current then Some(Create)
              else if name !in wanted && name in current then Some(Remove) else None
    {
      DiffLaw(wanted, current, name);
      OccurrencesNoDup(current, name);
    }
    forall name
      ensures name in Diff(wanted, current) <==> Lookup(Diff(wanted, current), name).Some?
    {}
  }

  /** The readonly subuser is tagged for removal only if Ceph lists it an even,
      positive number of times, so never for a list without duplicates. */
  lemma ReadonlyIsKept(id: string, desired: seq<string>, current: seq<string>)
    ensures var ro := SubuserFullId(id, READONLY);
            var n := Occurrences(current, ro);
            Lookup(Diff(Wanted(id, desired), current), ro) == Some(Remove) <==> n > 0 && n % 2 == 0
    ensures NoDup(current) ==>
              Lookup(Diff(Wanted(id, desired), current), SubuserFullId(id, READONLY)) != Some(Remove)
  {
    var ro := SubuserFullId(id, READONLY);
    DiffLaw(Wanted(id, desired), current, ro);
    if NoDup(current) {
      OccurrencesNoDup(current, ro);
    }
  }
}
