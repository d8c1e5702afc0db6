/**
 The tag and recipe tables as values, and what `RecipeSerializer` does to them.

 `FindOrMake` is `Tag.objects.get_or_create(user=..., name=...)`; `AttachAll` is the
 loop of `_get_or_create_tags`; `CreateResult` and `UpdateResult` are `create` and
 `update`. Each returns the new tables and whether it ran to the end: `false` means
 the lookup found two rows for one (user, name) and raised, with the writes made
 before that point kept.
 */
module RecipeModel {
  import opened SerializerFields

  type UserId = nat
  type TagId = nat
  type RecipeId = nat

  /** A tag row: its owner and its name. */
  datatype Tag = Tag(user: UserId, name: string)

  /** A recipe row: its owner, its scalar columns by name, and its tag relation. */
  datatype Recipe = Recipe(user: UserId, fields: map<string, Value>, tags: set<TagId>)

  /** Both tables, with the next id each auto-increment key hands out. */
  datatype Db = Db(tags: map<TagId, Tag>, nextTag: TagId, recipes: map<RecipeId, Recipe>, nextRecipe: RecipeId)

  /** Ids in use are below the counters, and every attached tag is a row of the tag table. */
  ghost predicate ValidDb(db: Db)
  {
    (forall id :: id in db.tags ==> id < db.nextTag) &&
    (forall id :: id in db.recipes ==> id < db.nextRecipe) &&
    (forall id :: id in db.recipes ==> db.recipes[id].tags <= db.tags.Keys)
  }

  /** At most one tag row per (user, name). */
  ghost predicate UniqueTags(rows: map<TagId, Tag>)
  {
    forall i, j :: i in rows && j in rows && rows[i] == rows[j] ==> i == j
  }

  /** The rows `get_or_create` would find for this key. */
  function Matches(rows: map<TagId, Tag>, key: Tag): set<TagId>
  {
    set id | id in rows && rows[id] == key
  }

  /** The rows owned by `user` whose name is one of `names`. */
  ghost function Resolve(rows: map<TagId, Tag>, user: UserId, names: set<string>): set<TagId>
  {
    set id | id in rows && rows[id].user == user && rows[id].name in names
  }

  /** The names a list of tag payloads carries. */
  function Names(ps: seq<TagData>): set<string>
  {
    if ps == [] then {} else {ps[0].name} + Names(ps[1..])
  }

  /** The names of the given tag rows. */
  ghost function NamesOf(rows: map<TagId, Tag>, ids: set<TagId>): set<string>
  {
    set id | id in ids && id in rows :: rows[id].name
  }

  /** The tag list a create or update works through: `pop('tags', [])`. */
  function TagsOrEmpty(tags: Option<seq<TagData>>): seq<TagData>
  {
    match tags
    case None => []
    case Some(ps) => ps
  }

  /** What `get_or_create` returns: the row and whether it was made, or the error it raises. */
  datatype Lookup = Got(id: TagId, created: bool) | MultipleObjectsReturned

  ghost function Pick(s: set<TagId>): (x: TagId)
    requires s != {}
    ensures x in s
  {
    var x :| x in s; x
  }

  lemma Singleton(s: set<TagId>, x: TagId)
    requires |s| == 1 && x in s
    ensures s == {x}
  {
    var rest := s - {x};
    assert s == rest + {x};
  }

  lemma MatchesInsert(rows: map<TagId, Tag>, id: TagId, made: Tag, key: Tag)
    requires id !in rows
    ensures Matches(rows[id := made], key) == if key == made then Matches(rows, key) + {id} else Matches(rows, key)
  {
  }

  /** `get_or_create(user=key.user, name=key.name)`: no match makes a row under the next id,
      one match returns it, more than one raises. `FindOrMakeSpec` states what it does. */
  ghost function FindOrMake(db: Db, key: Tag): (r: (Db, Lookup))
    requires ValidDb(db)
    ensures ValidDb(r.0) && r.0.recipes == db.recipes && r.0.nextRecipe == db.nextRecipe
    ensures r.1.Got? ==> r.1.id in r.0.tags
  {
    var found := Matches(db.tags, key);
    if found == {} then
      (db.(tags := db.tags[db.nextTag := key], nextTag := db.nextTag + 1), Got(db.nextTag, true))
    else if |found| == 1 then
      (db, Got(Pick(found), false))
    else
      (db, MultipleObjectsReturned)
  }

  /** Adds one tag id to recipe `rid`'s relation (`recipe.tags.add`). */
  ghost function AddTag(db: Db, rid: RecipeId, id: TagId): (r: Db)
    requires ValidDb(db) && rid in db.recipes && id in db.tags
    ensures ValidDb(r) && r.recipes.Keys == db.recipes.Keys
    ensures r.recipes == db.recipes[rid := db.recipes[rid].(tags := db.recipes[rid].tags + {id})]
    ensures r.tags == db.tags && r.nextTag == db.nextTag && r.nextRecipe == db.nextRecipe
  {
    db.(recipes := db.recipes[rid := db.recipes[rid].(tags := db.recipes[rid].tags + {id})])
  }

  /** The loop of `_get_or_create_tags`: for each payload, find or make the actor's tag of
      that name and attach it to recipe `rid`; stop at the first lookup that raises. */
  ghost function AttachAll(db: Db, actor: UserId, rid: RecipeId, ps: seq<TagData>): (r: (Db, bool))
    requires ValidDb(db) && rid in db.recipes
    ensures ValidDb(r.0) && r.0.recipes.Keys == db.recipes.Keys
    decreases |ps|
  {
    if ps == [] then (db, true)
    else
      var step := FindOrMake(db, Tag(actor, ps[0].name));
      if step.1.MultipleObjectsReturned? then (step.0, false)
      else AttachAll(AddTag(step.0, rid, step.1.id), actor, rid, ps[1..])
  }

  /** One turn of the loop: the first payload's lookup, then the rest from the updated tables. */
  lemma AttachUnfold(db: Db, actor: UserId, rid: RecipeId, ps: seq<TagData>)
    requires ValidDb(db) && rid in db.recipes && ps != []
    ensures var step := FindOrMake(db, Tag(actor, ps[0].name));
      AttachAll(db, actor, rid, ps) ==
        if step.1.Got? then AttachAll(AddTag(step.0, rid, step.1.id), actor, rid, ps[1..]) else (step.0, false)
  {
  }

  /** `Recipe.objects.create(**validated_data)`: a new row under the next id, owned by the
      actor, with the other keys as its columns and no tags. The owner is the `user` the
      caller adds to `validated_data` on save, which wins over a `user` key already there. */
  ghost function InsertRecipe(db: Db, actor: UserId, fields: map<string, Value>): (r: Db)
    requires ValidDb(db)
    ensures ValidDb(r) && db.nextRecipe in r.recipes && db.nextRecipe !in db.recipes
    ensures r.recipes == db.recipes[db.nextRecipe := Recipe(actor, fields - {OwnerKey}, {})]
    ensures r.tags == db.tags && r.nextTag == db.nextTag
  {
    db.(recipes := db.recipes[db.nextRecipe := Recipe(actor, fields - {OwnerKey}, {})], nextRecipe := db.nextRecipe + 1)
  }

  /** `create`: insert the row, then attach the supplied tags, if any. */
  ghost function CreateResult(db: Db, actor: UserId, data: Payload): (r: (Db, RecipeId, bool))
    requires ValidDb(db)
    ensures ValidDb(r.0) && r.1 == db.nextRecipe
    ensures r.0.recipes.Keys == db.recipes.Keys + {r.1}
  {
    var r := AttachAll(InsertRecipe(db, actor, data.fields), actor, db.nextRecipe, TagsOrEmpty(data.tags));
    (r.0, db.nextRecipe, r.1)
  }

  /** `instance.tags.clear()`: empties one recipe's relation; the tag rows stay. */
  ghost function ClearTags(db: Db, rid: RecipeId): (r: Db)
    requires ValidDb(db) && rid in db.recipes
    ensures ValidDb(r) && r.recipes.Keys == db.recipes.Keys
    ensures r.recipes == db.recipes[rid := db.recipes[rid].(tags := {})]
    ensures r.tags == db.tags && r.nextTag == db.nextTag && r.nextRecipe == db.nextRecipe
  {
    db.(recipes := db.recipes[rid := db.recipes[rid].(tags := {})])
  }

  /** `setattr` accepts every supplied attribute: the `user` foreign key takes only a user
      (anything else raises `ValueError`), and every other key is a plain column. */
  predicate Assignable(supplied: map<string, Value>)
  {
    OwnerKey in supplied ==> supplied[OwnerKey].UserRef?
  }

  /** A recipe after `setattr` of each supplied attribute: `user` sets the owner, every
      other key overwrites its column. */
  function Assign(r: Recipe, supplied: map<string, Value>): Recipe
    requires Assignable(supplied)
  {
    Recipe(if OwnerKey in supplied then supplied[OwnerKey].user else r.user,
           r.fields + (supplied - {OwnerKey}), r.tags)
  }

  /** The `setattr` loop and `instance.save()` on recipe `rid`. */
  ghost function SaveFields(db: Db, rid: RecipeId, supplied: map<string, Value>): (r: Db)
    requires ValidDb(db) && rid in db.recipes && Assignable(supplied)
    ensures ValidDb(r) && r.recipes.Keys == db.recipes.Keys
    ensures r.recipes == db.recipes[rid := Assign(db.recipes[rid], supplied)]
    ensures r.tags == db.tags && r.nextTag == db.nextTag && r.nextRecipe == db.nextRecipe
  {
    db.(recipes := db.recipes[rid := Assign(db.recipes[rid], supplied)])
  }

  /** `update`: when `tags` is supplied, clear the relation and attach the supplied tags;
      then set each supplied attribute and save. A raised lookup, or a `setattr` that
      raises, skips the save. */
  ghost function UpdateResult(db: Db, actor: UserId, rid: RecipeId, data: Payload): (r: (Db, bool))
    requires ValidDb(db) && rid in db.recipes
    ensures ValidDb(r.0) && r.0.recipes.Keys == db.recipes.Keys
  {
    var relinked := if data.tags.None? then (db, true) else AttachAll(ClearTags(db, rid), actor, rid, data.tags.value);
    if !relinked.1 then relinked
    else if !Assignable(data.fields) then (relinked.0, false)
    else (SaveFields(relinked.0, rid, data.fields), true)
  }

  // ---------------------------------------------------------------------------
  // get_or_create

  /** No match makes exactly one row under the next id, owned as asked; one match returns that
      row and changes nothing; two or more raise and change nothing. */
  lemma FindOrMakeSpec(db: Db, key: Tag)
    requires ValidDb(db)
    ensures var r := FindOrMake(db, key);
      (r.1.Got? <==> |Matches(db.tags, key)| <= 1) &&
      (r.1.Got? ==> r.0.tags[r.1.id] == key && Matches(r.0.tags, key) == {r.1.id}) &&
      ((r.1.Got? && r.1.created) <==> Matches(db.tags, key) == {}) &&
      (r.1.Got? && r.1.created ==>
        r.1.id == db.nextTag && r.1.id !in db.tags && r.0.tags == db.tags[r.1.id := key] && r.0.nextTag == r.1.id + 1) &&
      (!(r.1.Got? && r.1.created) ==> r.0 == db)
  {
    var found := Matches(db.tags, key);
    if found == {} {
      MatchesInsert(db.tags, db.nextTag, key, key);
    } else if |found| == 1 {
      Singleton(found, Pick(found));
    }
  }

  /** A second lookup with the same key finds the row the first one returned and makes nothing;
      the first made at most that one row. */
  lemma FindOrMakeIdempotent(db: Db, key: Tag)
    requires ValidDb(db)
    ensures var r1 := FindOrMake(db, key);
      r1.1.Got? ==>
        r1.0.tags.Keys - db.tags.Keys <= {r1.1.id} &&
        FindOrMake(r1.0, key) == (r1.0, Got(r1.1.id, false))
  {
    var r1 := FindOrMake(db, key);
    FindOrMakeSpec(db, key);
    if r1.1.Got? {
      FindOrMakeSpec(r1.0, key);
    }
  }

  lemma UniqueMatches(rows: map<TagId, Tag>, key: Tag)
    requires UniqueTags(rows)
    ensures |Matches(rows, key)| <= 1
  {
    var m := Matches(rows, key);
    if m != {} {
      var a :| a in m;
      assert m == {a};
    }
  }

  // ---------------------------------------------------------------------------
  // _get_or_create_tags

  /** The loop touches only recipe `rid`'s relation, which it only grows, and only adds tag rows. */
  lemma {:induction false} AttachFrame(db: Db, actor: UserId, rid: RecipeId, ps: seq<TagData>)
    requires ValidDb(db) && rid in db.recipes
    ensures var r := AttachAll(db, actor, rid, ps);
      r.0.nextRecipe == db.nextRecipe && db.nextTag <= r.0.nextTag &&
      (forall id :: id in db.recipes && id != rid ==> r.0.recipes[id] == db.recipes[id]) &&
      r.0.recipes[rid].user == db.recipes[rid].user && r.0.recipes[rid].fields == db.recipes[rid].fields &&
      db.recipes[rid].tags <= r.0.recipes[rid].tags
    ensures var r := AttachAll(db, actor, rid, ps);
      forall id :: id in db.tags ==> id in r.0.tags && r.0.tags[id] == db.tags[id]
    decreases |ps|
  {
    if ps != [] {
      var step := FindOrMake(db, Tag(actor, ps[0].name));
      FindOrMakeSpec(db, Tag(actor, ps[0].name));
      if step.1.Got? {
        AttachFrame(AddTag(step.0, rid, step.1.id), actor, rid, ps[1..]);
      }
    }
  }

  /** Only the actor's tags are attached, and a row the loop makes belongs to the actor and
      carries one of the supplied names; another user's row is never attached, whatever its name. */
  lemma {:induction false} AttachOwnedByActor(db: Db, actor: UserId, rid: RecipeId, ps: seq<TagData>)
    requires ValidDb(db) && rid in db.recipes
    ensures var r := AttachAll(db, actor, rid, ps);
      forall id :: id in r.0.recipes[rid].tags && id !in db.recipes[rid].tags ==>
        id in r.0.tags && r.0.tags[id].user == actor && r.0.tags[id].name in Names(ps)
    ensures var r := AttachAll(db, actor, rid, ps);
      forall id :: id in r.0.tags && id !in db.tags ==>
        r.0.tags[id].user == actor && r.0.tags[id].name in Names(ps)
    decreases |ps|
  {
    if ps != [] {
      var k0 := Tag(actor, ps[0].name);
      var step := FindOrMake(db, k0);
      FindOrMakeSpec(db, k0);
      if step.1.Got? {
        var db2 := AddTag(step.0, rid, step.1.id);
        assert AttachAll(db, actor, rid, ps) == AttachAll(db2, actor, rid, ps[1..]);
        AttachFrame(db2, actor, rid, ps[1..]);
        AttachOwnedByActor(db2, actor, rid, ps[1..]);
        assert Names(ps) == {ps[0].name} + Names(ps[1..]);
      }
    }
  }

  /** A key that already has rows keeps exactly those rows: the loop only makes rows for keys
      that had none. */
  lemma {:induction false} AttachKeepsMatches(db: Db, actor: UserId, rid: RecipeId, ps: seq<TagData>, key: Tag)
    requires ValidDb(db) && rid in db.recipes
    requires Matches(db.tags, key) != {}
    ensures Matches(AttachAll(db, actor, rid, ps).0.tags, key) == Matches(db.tags, key)
    decreases |ps|
  {
    if ps != [] {
      var k0 := Tag(actor, ps[0].name);
      var step := FindOrMake(db, k0);
      FindOrMakeSpec(db, k0);
      if step.1.Got? {
        if step.1.created {
          MatchesInsert(db.tags, step.1.id, k0, key);
        }
        AttachKeepsMatches(AddTag(step.0, rid, step.1.id), actor, rid, ps[1..], key);
      }
    }
  }

  /** One step of the resolution: the row found for the first name, then the rest. */
  lemma ResolveStep(rows: map<TagId, Tag>, user: UserId, n: string, names: set<string>,
                    before: set<TagId>, after: set<TagId>, id: TagId)
    requires Matches(rows, Tag(user, n)) == {id}
    requires after == before + {id} + Resolve(rows, user, names)
    ensures after == before + Resolve(rows, user, {n} + names)
  {
    assert Resolve(rows, user, {n} + names) == Matches(rows, Tag(user, n)) + Resolve(rows, user, names);
  }

  /** When the loop runs to the end, it adds to the relation exactly the actor's rows named by
      the payloads, and each supplied name then has exactly one such row. */
  lemma {:induction false} AttachResolves(db: Db, actor: UserId, rid: RecipeId, ps: seq<TagData>)
    requires ValidDb(db) && rid in db.recipes
    ensures AttachAll(db, actor, rid, ps).1 ==>
      AttachAll(db, actor, rid, ps).0.recipes[rid].tags ==
        db.recipes[rid].tags + Resolve(AttachAll(db, actor, rid, ps).0.tags, actor, Names(ps))
    ensures AttachAll(db, actor, rid, ps).1 ==>
      forall n :: n in Names(ps) ==> |Matches(AttachAll(db, actor, rid, ps).0.tags, Tag(actor, n))| == 1
    decreases |ps|
  {
    if ps == [] {
      assert Resolve(db.tags, actor, {}) == {};
    } else {
      var k0 := Tag(actor, ps[0].name);
      var step := FindOrMake(db, k0);
      FindOrMakeSpec(db, k0);
      if step.1.Got? {
        var id := step.1.id;
        var db2 := AddTag(step.0, rid, id);
        var rest := AttachAll(db2, actor, rid, ps[1..]);
        assert AttachAll(db, actor, rid, ps) == rest;
        AttachResolves(db2, actor, rid, ps[1..]);
        AttachKeepsMatches(db2, actor, rid, ps[1..], k0);
        if rest.1 {
          ResolveStep(rest.0.tags, actor, ps[0].name, Names(ps[1..]),
                      db.recipes[rid].tags, rest.0.recipes[rid].tags, id);
        }
      }
    }
  }

  /** Every supplied name that already resolves to exactly one row keeps resolving to it: a
      run whose names all resolve succeeds and makes no row. */
  lemma {:induction false} AttachReusesResolved(db: Db, actor: UserId, rid: RecipeId, ps: seq<TagData>)
    requires ValidDb(db) && rid in db.recipes
    requires forall n :: n in Names(ps) ==> |Matches(db.tags, Tag(actor, n))| == 1
    ensures AttachAll(db, actor, rid, ps).1
    ensures AttachAll(db, actor, rid, ps).0.tags == db.tags
    ensures AttachAll(db, actor, rid, ps).0.nextTag == db.nextTag
    decreases |ps|
  {
    if ps != [] {
      var k0 := Tag(actor, ps[0].name);
      assert ps[0].name in Names(ps);
      var step := FindOrMake(db, k0);
      FindOrMakeSpec(db, k0);
      var db2 := AddTag(step.0, rid, step.1.id);
      forall n | n in Names(ps[1..]) ensures |Matches(db2.tags, Tag(actor, n))| == 1 {
        assert n in Names(ps);
      }
      AttachReusesResolved(db2, actor, rid, ps[1..]);
    }
  }

  /** With at most one row per (user, name) beforehand, no lookup raises and the property still
      holds afterwards: new rows are made only after a failed lookup. */
  lemma {:induction false} AttachPreservesUnique(db: Db, actor: UserId, rid: RecipeId, ps: seq<TagData>)
    requires ValidDb(db) && rid in db.recipes
    requires UniqueTags(db.tags)
    ensures AttachAll(db, actor, rid, ps).1
    ensures UniqueTags(AttachAll(db, actor, rid, ps).0.tags)
    decreases |ps|
  {
    if ps != [] {
      var k0 := Tag(actor, ps[0].name);
      UniqueMatches(db.tags, k0);
      var step := FindOrMake(db, k0);
      FindOrMakeSpec(db, k0);
      if step.1.created {
        forall id | id in db.tags ensures db.tags[id] != k0 {
          assert id !in Matches(db.tags, k0);
        }
      }
      AttachPreservesUnique(AddTag(step.0, rid, step.1.id), actor, rid, ps[1..]);
    }
  }

  /** When every name resolves to exactly one of the user's rows, the names of the resolved
      rows are exactly the supplied names. */
  lemma ResolvedNames(rows: map<TagId, Tag>, user: UserId, names: set<string>)
    requires forall n :: n in names ==> |Matches(rows, Tag(user, n))| == 1
    ensures NamesOf(rows, Resolve(rows, user, names)) == names
  {
    var r := Resolve(rows, user, names);
    forall n | n in names ensures n in NamesOf(rows, r) {
      var id := Pick(Matches(rows, Tag(user, n)));
      assert id in r;
    }
  }

  // ---------------------------------------------------------------------------
  // create

  /** The new row is owned by the actor and holds exactly the supplied columns, a `user` key
      never being one; no other recipe changes and every earlier tag row stays. */
  lemma CreateFrame(db: Db, actor: UserId, data: Payload)
    requires ValidDb(db)
    ensures var r := CreateResult(db, actor, data);
      r.1 !in db.recipes &&
      r.0.recipes[r.1].user == actor && r.0.recipes[r.1].fields == data.fields - {OwnerKey} &&
      (forall id :: id in db.recipes ==> r.0.recipes[id] == db.recipes[id]) &&
      (forall id :: id in db.tags ==> id in r.0.tags && r.0.tags[id] == db.tags[id])
  {
    AttachFrame(InsertRecipe(db, actor, data.fields), actor, db.nextRecipe, TagsOrEmpty(data.tags));
  }

  /** Create without a `tags` key, or with an empty list, yields an empty relation and
      leaves the tag table as it was. */
  lemma CreateWithoutTags(db: Db, actor: UserId, data: Payload)
    requires ValidDb(db)
    requires data.tags == None || data.tags == Some([])
    ensures var r := CreateResult(db, actor, data);
      r.2 && r.0.recipes[r.1].tags == {} && r.0.tags == db.tags && r.0.nextTag == db.nextTag
  {
  }

  /** Create with tag payloads yields a relation of the actor's rows, exactly one per supplied
      name, whose names are exactly the supplied names. */
  lemma CreateAttachesSuppliedNames(db: Db, actor: UserId, data: Payload)
    requires ValidDb(db)
    ensures var r := CreateResult(db, actor, data);
      (forall id :: id in r.0.recipes[r.1].tags ==> r.0.tags[id].user == actor) &&
      (r.2 ==>
        r.0.recipes[r.1].tags == Resolve(r.0.tags, actor, Names(TagsOrEmpty(data.tags))) &&
        NamesOf(r.0.tags, r.0.recipes[r.1].tags) == Names(TagsOrEmpty(data.tags)))
  {
    var rid := db.nextRecipe;
    var db1 := InsertRecipe(db, actor, data.fields);
    var ps := TagsOrEmpty(data.tags);
    AttachOwnedByActor(db1, actor, rid, ps);
    AttachResolves(db1, actor, rid, ps);
    var attached := AttachAll(db1, actor, rid, ps);
    if attached.1 {
      ResolvedNames(attached.0.tags, actor, Names(ps));
    }
  }

  /** Create keeps at most one row per (user, name), and then never raises. */
  lemma CreatePreservesUnique(db: Db, actor: UserId, data: Payload)
    requires ValidDb(db) && UniqueTags(db.tags)
    ensures CreateResult(db, actor, data).2
    ensures UniqueTags(CreateResult(db, actor, data).0.tags)
  {
    AttachPreservesUnique(InsertRecipe(db, actor, data.fields), actor, db.nextRecipe, TagsOrEmpty(data.tags));
  }

  /** Creating a second recipe with the same tag names reuses the rows the first one made. */
  lemma CreateTwiceMakesNoNewTags(db: Db, actor: UserId, data: Payload)
    requires ValidDb(db)
    ensures var first := CreateResult(db, actor, data);
      first.2 ==>
        var second := CreateResult(first.0, actor, data);
        second.2 && second.0.tags == first.0.tags && second.0.nextTag == first.0.nextTag
  {
    var ps := TagsOrEmpty(data.tags);
    AttachResolves(InsertRecipe(db, actor, data.fields), actor, db.nextRecipe, ps);
    var first := CreateResult(db, actor, data);
    if first.2 {
      AttachReusesResolved(InsertRecipe(first.0, actor, data.fields), actor, first.0.nextRecipe, ps);
    }
  }

  // ---------------------------------------------------------------------------
  // update

  /** Update with `tags` absent leaves the relation and the tag table as they were, and
      raises only where `setattr` does. */
  lemma UpdateWithoutTags(db: Db, actor: UserId, rid: RecipeId, data: Payload)
    requires ValidDb(db) && rid in db.recipes
    requires data.tags.None?
    ensures var r := UpdateResult(db, actor, rid, data);
      r.1 == Assignable(data.fields) &&
      r.0.recipes[rid].tags == db.recipes[rid].tags && r.0.tags == db.tags && r.0.nextTag == db.nextTag
  {
  }

  /** Proof step for the lemmas below: with `tags` supplied, the save after the relinking
      touches neither the relation nor the tag table. */
  lemma UpdateRelinks(db: Db, actor: UserId, rid: RecipeId, data: Payload)
    requires ValidDb(db) && rid in db.recipes
    requires data.tags.Some?
    ensures var r := UpdateResult(db, actor, rid, data);
      var relinked := AttachAll(ClearTags(db, rid), actor, rid, data.tags.value);
      r.1 == (relinked.1 && Assignable(data.fields)) && r.0.tags == relinked.0.tags &&
      r.0.recipes[rid].tags == relinked.0.recipes[rid].tags
  {
  }

  /** Update with `tags` present replaces the relation by exactly the actor's rows named by
      the payloads; the old tags are only detached, their rows stay in the table. */
  lemma UpdateReplacesTags(db: Db, actor: UserId, rid: RecipeId, data: Payload)
    requires ValidDb(db) && rid in db.recipes
    requires data.tags.Some?
    ensures var r := UpdateResult(db, actor, rid, data);
      (forall id :: id in r.0.recipes[rid].tags ==> r.0.tags[id].user == actor) &&
      (r.1 ==>
        r.0.recipes[rid].tags == Resolve(r.0.tags, actor, Names(data.tags.value)) &&
        NamesOf(r.0.tags, r.0.recipes[rid].tags) == Names(data.tags.value))
  {
    var db0 := ClearTags(db, rid);
    var ps := data.tags.value;
    var relinked := AttachAll(db0, actor, rid, ps);
    UpdateRelinks(db, actor, rid, data);
    AttachOwnedByActor(db0, actor, rid, ps);
    AttachResolves(db0, actor, rid, ps);
    if relinked.1 {
      ResolvedNames(relinked.0.tags, actor, Names(ps));
    }
  }

  /** Update with an empty `tags` list clears the relation and makes no row. */
  lemma UpdateEmptyTagsClears(db: Db, actor: UserId, rid: RecipeId, data: Payload)
    requires ValidDb(db) && rid in db.recipes
    requires data.tags == Some([])
    ensures var r := UpdateResult(db, actor, rid, data);
      r.1 == Assignable(data.fields) &&
      r.0.recipes[rid].tags == {} && r.0.tags == db.tags && r.0.nextTag == db.nextTag
  {
  }

  /** A completed update sets each supplied column and leaves every other column as it was;
      one that raised leaves every column as it was. */
  lemma UpdateSetsSuppliedFields(db: Db, actor: UserId, rid: RecipeId, data: Payload)
    requires ValidDb(db) && rid in db.recipes
    ensures var r := UpdateResult(db, actor, rid, data);
      var before, after := db.recipes[rid].fields, r.0.recipes[rid].fields;
      (r.1 ==> after.Keys == before.Keys + (data.fields.Keys - {OwnerKey})) &&
      (r.1 ==> forall k :: k in data.fields && k != OwnerKey ==> after[k] == data.fields[k]) &&
      (forall k :: k in before && k !in data.fields ==> k in after && after[k] == before[k]) &&
      (!r.1 ==> after == before)
  {
    if data.tags.Some? {
      AttachFrame(ClearTags(db, rid), actor, rid, data.tags.value);
    }
  }

  /** `setattr` of `user` is the one way an update changes the owner: a supplied user
      reference becomes the owner of a completed update, any other value under `user`
      raises, and without a `user` key the owner stays. */
  lemma UpdateAssignsOwner(db: Db, actor: UserId, rid: RecipeId, data: Payload)
    requires ValidDb(db) && rid in db.recipes
    ensures var r := UpdateResult(db, actor, rid, data);
      (!Assignable(data.fields) ==> !r.1) &&
      (r.1 && OwnerKey in data.fields ==>
        data.fields[OwnerKey].UserRef? && r.0.recipes[rid].user == data.fields[OwnerKey].user) &&
      (OwnerKey !in data.fields ==> r.0.recipes[rid].user == db.recipes[rid].user)
  {
    if data.tags.Some? {
      AttachFrame(ClearTags(db, rid), actor, rid, data.tags.value);
    }
  }

  /** Whatever the client sends, an `id` or a `user` among it, an update never changes the
      recipe's owner and never adds a column outside the writable fields, and it leaves
      every other recipe and every existing tag row as it was: the serializer drops `user`
      before `setattr` sees it. */
  lemma UpdateKeepsOwner(db: Db, actor: UserId, rid: RecipeId, raw: RawPayload, detail: bool)
    requires ValidDb(db) && rid in db.recipes
    ensures var r := UpdateResult(db, actor, rid, Validate(raw, detail));
      r.0.recipes[rid].user == db.recipes[rid].user &&
      r.0.recipes[rid].fields.Keys <= db.recipes[rid].fields.Keys + ScalarWritable(detail) &&
      (forall id :: id in db.recipes && id != rid ==> r.0.recipes[id] == db.recipes[id]) &&
      (forall id :: id in db.tags ==> id in r.0.tags && r.0.tags[id] == db.tags[id])
  {
    var data := Validate(raw, detail);
    ValidateKeepsWritable(raw, detail);
    if data.tags.Some? {
      AttachFrame(ClearTags(db, rid), actor, rid, data.tags.value);
    }
  }

  /** An update whose first lookup meets two rows for one (user, name) raises after the
      relation was cleared: the recipe is left with no tags and its old columns, and no row
      is made. The relinking is not all-or-nothing. */
  lemma UpdateRaisingLeavesRelationCleared(db: Db, actor: UserId, rid: RecipeId, data: Payload)
    requires ValidDb(db) && rid in db.recipes
    requires data.tags.Some? && data.tags.value != []
    requires |Matches(db.tags, Tag(actor, data.tags.value[0].name))| >= 2
    ensures var r := UpdateResult(db, actor, rid, data);
      !r.1 && r.0.recipes[rid].tags == {} && r.0.recipes[rid].fields == db.recipes[rid].fields &&
      r.0.tags == db.tags
  {
    var db0 := ClearTags(db, rid);
    var k0 := Tag(actor, data.tags.value[0].name);
    FindOrMakeSpec(db0, k0);
    AttachUnfold(db0, actor, rid, data.tags.value);
  }

  /** Update keeps at most one row per (user, name), and then raises only where `setattr`
      does. */
  lemma UpdatePreservesUnique(db: Db, actor: UserId, rid: RecipeId, data: Payload)
    requires ValidDb(db) && rid in db.recipes && UniqueTags(db.tags)
    ensures UpdateResult(db, actor, rid, data).1 == Assignable(data.fields)
    ensures UniqueTags(UpdateResult(db, actor, rid, data).0.tags)
  {
    if data.tags.Some? {
      AttachPreservesUnique(ClearTags(db, rid), actor, rid, data.tags.value);
    }
  }
}
