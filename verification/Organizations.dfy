/** The organisation service: creation under a unique slug, update by the owner, deactivation. */
module Organizations {
  import opened Common
  import opened Schema
  import opened Slugs
  import opened Text

  datatype OrgError = NotFound | NotOwner | DuplicateId

  datatype Changes = Changes(name: Option<string>, description: Option<string>, website: Option<string>)

  function SlugsOf(orgs: seq<Org>): set<string> {
    set i | 0 <= i < |orgs| :: orgs[i].slug
  }

  ghost predicate DistinctSlugs(orgs: seq<Org>) {
    forall i, j :: 0 <= i < j < |orgs| ==> orgs[i].slug != orgs[j].slug
  }

  function FindOrg(orgs: seq<Org>, id: Id): (i: int)
    ensures -1 <= i < |orgs|
    ensures i >= 0 ==> orgs[i].id == id
    ensures forall k :: 0 <= k < |orgs| && k > i ==> orgs[k].id != id
  {
    Find(orgs, (o: Org) => o.id == id)
  }

  function AllottedSlug(orgs: seq<Org>, name: string): string {
    UniqueSlug(Slugify(name), SlugsOf(orgs))
  }

  function CreateOutcome(orgs: seq<Org>, org: Org): (seq<Org>, Option<OrgError>) {
    if FindOrg(orgs, org.id) >= 0 then (orgs, Some(DuplicateId)) else (orgs + [org], None)
  }

  function ApplyChanges(org: Org, changes: Changes): Org {
    org.(name := if changes.name.Some? then changes.name.value else org.name,
         description := if changes.description.Some? then changes.description else org.description,
         website := if changes.website.Some? then changes.website else org.website)
  }

  function UpdateOutcome(orgs: seq<Org>, id: Id, changes: Changes, requester: Id): (seq<Org>, Option<OrgError>) {
    var i := FindOrg(orgs, id);
    if i < 0 then (orgs, Some(NotFound))
    else if orgs[i].ownerId != requester then (orgs, Some(NotOwner))
    else (orgs[i := ApplyChanges(orgs[i], changes)], None)
  }

  function DeactivateOutcome(orgs: seq<Org>, id: Id): (seq<Org>, Option<OrgError>) {
    var i := FindOrg(orgs, id);
    if i < 0 then (orgs, Some(NotFound)) else (orgs[i := orgs[i].(isActive := false)], None)
  }

  datatype OrgCall =
    | CreateOrg(id: Id, name: string, description: Option<string>, website: Option<string>, owner: Id)
    | UpdateOrg(id: Id, changes: Changes, requester: Id)
    | DeactivateOrg(id: Id)

  function OrgOutcome(orgs: seq<Org>, call: OrgCall): (seq<Org>, Option<OrgError>) {
    match call
    case CreateOrg(id, name, description, website, owner) =>
      CreateOutcome(orgs, Org(id, name, AllottedSlug(orgs, name), description, website, true, owner))
    case UpdateOrg(id, changes, requester) => UpdateOutcome(orgs, id, changes, requester)
    case DeactivateOrg(id) => DeactivateOutcome(orgs, id)
  }

  /** Stored organisations are never removed, and a slug once given is never changed. */
  ghost predicate KeepsSlugs(before: seq<Org>, after: seq<Org>) {
    |before| <= |after| && forall i :: 0 <= i < |before| ==>
      after[i].id == before[i].id && after[i].slug == before[i].slug
  }

  lemma {:induction false} AllottedSlugIsFree(orgs: seq<Org>, name: string)
    ensures forall i :: 0 <= i < |orgs| ==> orgs[i].slug != AllottedSlug(orgs, name)
  {
    var slug := AllottedSlug(orgs, name);
    assert slug !in SlugsOf(orgs);
    forall i | 0 <= i < |orgs| ensures orgs[i].slug != slug {
      assert orgs[i].slug in SlugsOf(orgs);
    }
  }

  lemma {:induction false} CreateKeepsSlugs(orgs: seq<Org>, org: Org)
    requires DistinctSlugs(orgs) && forall i :: 0 <= i < |orgs| ==> orgs[i].slug != org.slug
    ensures DistinctSlugs(CreateOutcome(orgs, org).0) && KeepsSlugs(orgs, CreateOutcome(orgs, org).0)
  {
    hide FindOrg;
  }

  lemma {:induction false} ReplaceKeepsSlugs(orgs: seq<Org>, i: nat, org: Org)
    requires DistinctSlugs(orgs) && i < |orgs| && org.id == orgs[i].id && org.slug == orgs[i].slug
    ensures DistinctSlugs(orgs[i := org]) && KeepsSlugs(orgs, orgs[i := org])
  {
  }

  lemma {:induction false} OrgStepKeepsSlugs(orgs: seq<Org>, call: OrgCall)
    requires DistinctSlugs(orgs)
    ensures DistinctSlugs(OrgOutcome(orgs, call).0) && KeepsSlugs(orgs, OrgOutcome(orgs, call).0)
  {
    if call.CreateOrg? {
      AllottedSlugIsFree(orgs, call.name);
      hide AllottedSlug;
      var slug := AllottedSlug(orgs, call.name);
      CreateKeepsSlugs(orgs, Org(call.id, call.name, slug, call.description, call.website, true, call.owner));
    } else {
      var i := FindOrg(orgs, call.id);
      if i >= 0 {
        ReplaceKeepsSlugs(orgs, i, orgs[i].(isActive := false));
        if call.UpdateOrg? { ReplaceKeepsSlugs(orgs, i, ApplyChanges(orgs[i], call.changes)); }
      }
      hide DistinctSlugs, FindOrg;
    }
  }

  ghost predicate UniqueOrgs(orgs: seq<Org>) {
    forall i, j :: 0 <= i < j < |orgs| ==> orgs[i].id != orgs[j].id
  }

  ghost predicate HasOrg(orgs: seq<Org>, id: Id) {
    exists i :: 0 <= i < |orgs| && orgs[i].id == id
  }

  /** Only row `i` differs, and it kept its identity. */
  ghost predicate OnlyChanges(before: seq<Org>, after: seq<Org>, i: nat) {
    && |after| == |before| && i < |before|
    && (forall k :: 0 <= k < |before| && k != i ==> after[k] == before[k])
    && after[i].id == before[i].id && after[i].slug == before[i].slug && after[i].ownerId == before[i].ownerId
  }

  /** A creation adds one active organisation with the given fields, under a slug no other has. */
  lemma {:induction false} CreateOrgIs(orgs: seq<Org>, id: Id, name: string, description: Option<string>,
                                       website: Option<string>,
                    owner: Id)
    ensures var o := OrgOutcome(orgs, CreateOrg(id, name, description, website, owner));
      if HasOrg(orgs, id) then o == (orgs, Some(DuplicateId))
      else
        && o.1 == None && |o.0| == |orgs| + 1 && o.0[..|orgs|] == orgs
        && var org := o.0[|orgs|];
           && org.id == id && org.name == name && org.description == description && org.website == website
           && org.isActive && org.ownerId == owner && forall k :: 0 <= k < |orgs| ==> orgs[k].slug != org.slug
  {
    AllottedSlugIsFree(orgs, name);
    hide AllottedSlug;
    assert HasOrg(orgs, id) <==> FindOrg(orgs, id) >= 0;
  }

  /** An update by the owner changes the given fields of the one organisation; any other is refused. */
  lemma {:induction false} UpdateOrgIs(orgs: seq<Org>, id: Id, changes: Changes, requester: Id, i: nat)
    requires UniqueOrgs(orgs)
    ensures var o := OrgOutcome(orgs, UpdateOrg(id, changes, requester));
      && (!HasOrg(orgs, id) ==> o == (orgs, Some(NotFound)))
      && (i < |orgs| && orgs[i].id == id && orgs[i].ownerId != requester ==> o == (orgs, Some(NotOwner)))
      && (i < |orgs| && orgs[i].id == id && orgs[i].ownerId == requester ==>
            && o.1 == None && OnlyChanges(orgs, o.0, i) && o.0[i].isActive == orgs[i].isActive
            && (if changes.name.Some? then changes.name == Some(o.0[i].name) else o.0[i].name == orgs[i].name)
            && o.0[i].description == (if changes.description.Some? then changes.description else orgs[i].description)
            && o.0[i].website == (if changes.website.Some? then changes.website else orgs[i].website))
  {
    assert HasOrg(orgs, id) <==> FindOrg(orgs, id) >= 0;
    assert i < |orgs| && orgs[i].id == id ==> FindOrg(orgs, id) == i;
    hide FindOrg, HasOrg;
  }

  /** A deactivation clears the flag of the one organisation and changes nothing else. */
  lemma {:induction false} DeactivateOrgIs(orgs: seq<Org>, id: Id, i: nat)
    requires UniqueOrgs(orgs)
    ensures var o := OrgOutcome(orgs, DeactivateOrg(id));
      && (!HasOrg(orgs, id) ==> o == (orgs, Some(NotFound)))
      && (i < |orgs| && orgs[i].id == id ==>
            && o.1 == None && OnlyChanges(orgs, o.0, i) && !o.0[i].isActive && o.0[i].name == orgs[i].name
            && o.0[i].description == orgs[i].description && o.0[i].website == orgs[i].website)
  {
    assert HasOrg(orgs, id) <==> FindOrg(orgs, id) >= 0;
    assert i < |orgs| && orgs[i].id == id ==> FindOrg(orgs, id) == i;
    hide FindOrg, HasOrg;
  }

  class OrganizationRepository {
    const db: Session

    constructor (db: Session)
      ensures this.db == db
    {
      this.db := db;
    }

    method GetBySlug(slug: string) returns (found: bool)
      ensures found <==> slug in SlugsOf(db.tables.orgs)
    {
      found := Find(db.tables.orgs, (o: Org) => o.slug == slug) >= 0;
    }

    method Create(org: Org) returns (error: Option<OrgError>)
      modifies db`tables
      ensures db.tables == old(db.tables).(orgs := CreateOutcome(old(db.tables.orgs), org).0)
      ensures error == CreateOutcome(old(db.tables.orgs), org).1
    {
      if FindOrg(db.tables.orgs, org.id) >= 0 { return Some(DuplicateId); }
      db.tables := db.tables.(orgs := db.tables.orgs + [org]);
      return None;
    }
  }

  class OrganizationService {
    const repo: OrganizationRepository

    constructor (db: Session)
      ensures repo.db == db
    {
      repo := new OrganizationRepository(db);
    }

    /** Tries the base, then base-1, base-2, ...; never more than one candidate beyond the stored slugs. */
    method AllotSlug(base: string) returns (slug: string, ghost probes: nat)
      ensures slug == UniqueSlug(base, SlugsOf(repo.db.tables.orgs))
      ensures 1 <= probes <= |SlugsOf(repo.db.tables.orgs)| + 1
      ensures slug !in SlugsOf(repo.db.tables.orgs) && slug == Candidate(base, probes - 1)
      ensures forall j :: 0 <= j < probes - 1 ==> Candidate(base, j) in SlugsOf(repo.db.tables.orgs)
    {
      ghost var taken := SlugsOf(repo.db.tables.orgs);
      slug := base;
      var suffix := 1;
      probes := 1;
      var found := repo.GetBySlug(slug);
      while found
        invariant suffix == probes && slug == Candidate(base, suffix - 1)
        invariant found <==> slug in taken
        invariant forall j :: 0 <= j < suffix - 1 ==> Candidate(base, j) in taken
        invariant suffix - 1 <= |taken|
        decreases |taken| + 1 - suffix
      {
        SomeCandidateFree(base, taken, suffix);
        slug := base + "-" + Decimal(suffix);
        suffix := suffix + 1;
        probes := probes + 1;
        found := repo.GetBySlug(slug);
      }
      LeastIsUnique(base, taken, suffix - 1);
    }

    method CreateOrg(id: Id, name: string, description: Option<string>, website: Option<string>, owner: Id)
      returns (error: Option<OrgError>)
      modifies repo.db`tables
      ensures var o := OrgOutcome(old(repo.db.tables.orgs), OrgCall.CreateOrg(id, name, description, website, owner));
        repo.db.tables == old(repo.db.tables).(orgs := o.0) && error == o.1
    {
      var slug, probes := AllotSlug(Slugify(name));
      error := repo.Create(Org(id, name, slug, description, website, true, owner));
    }

    /** Called during registration, before the owner exists. */
    method CreateOrgInternal(id: Id, name: string, placeholderOwner: Id) returns (error: Option<OrgError>)
      modifies repo.db`tables
      ensures var orgs := old(repo.db.tables.orgs);
        var o := CreateOutcome(orgs, Org(id, name, AllottedSlug(orgs, name), None, None, true, placeholderOwner));
        repo.db.tables == old(repo.db.tables).(orgs := o.0) && error == o.1
    {
      var slug, probes := AllotSlug(Slugify(name));
      error := repo.Create(Org(id, name, slug, None, None, true, placeholderOwner));
    }

    method UpdateOrg(id: Id, changes: Changes, requester: Id) returns (error: Option<OrgError>)
      modifies repo.db`tables
      ensures var o := OrgOutcome(old(repo.db.tables.orgs), OrgCall.UpdateOrg(id, changes, requester));
        repo.db.tables == old(repo.db.tables).(orgs := o.0) && error == o.1
    {
      var orgs := repo.db.tables.orgs;
      var i := FindOrg(orgs, id);
      if i < 0 { return Some(NotFound); }
      if orgs[i].ownerId != requester { return Some(NotOwner); }
      repo.db.tables := repo.db.tables.(orgs := orgs[i := ApplyChanges(orgs[i], changes)]);
      return None;
    }

    method DeactivateOrg(id: Id) returns (error: Option<OrgError>)
      modifies repo.db`tables
      ensures var o := OrgOutcome(old(repo.db.tables.orgs), OrgCall.DeactivateOrg(id));
        repo.db.tables == old(repo.db.tables).(orgs := o.0) && error == o.1
    {
      var orgs := repo.db.tables.orgs;
      var i := FindOrg(orgs, id);
      if i < 0 { return Some(NotFound); }
      repo.db.tables := repo.db.tables.(orgs := orgs[i := orgs[i].(isActive := false)]);
      return None;
    }
  }

  lemma {:induction false} LeastIsUnique(base: string, taken: set<string>, n: nat)
    requires Candidate(base, n) !in taken
    requires forall j :: 0 <= j < n ==> Candidate(base, j) in taken
    ensures n == SearchFrom(base, taken, 0)
  {
    var m := SearchFrom(base, taken, 0);
    assert Candidate(base, m) !in taken;
  }
}
