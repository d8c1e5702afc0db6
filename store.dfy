/**
 The ORM layer made explicit: a `Store` object holding the tag and recipe tables, and the
 three serializer steps that change it in place. Each method is proved to leave the store
 exactly as the matching function of `RecipeModel` says, so every lemma proved there is a
 statement about these methods.
 */
module RecipeStore {
  import opened SerializerFields
  import opened RecipeModel

  /** The `setattr(instance, attr, val)` loop over `validated_data`: `user` sets the owner,
      each other key overwrites its column, and every column not supplied keeps its value.
      `false` when `setattr` raised: the `user` foreign key was given something other than a
      user. */
  method SetAttrs(instance: Recipe, supplied: map<string, Value>) returns (updated: Recipe, ok: bool)
    ensures ok == Assignable(supplied)
    ensures ok && OwnerKey in supplied ==> updated.user == supplied[OwnerKey].user
    ensures ok && OwnerKey !in supplied ==> updated.user == instance.user
    ensures ok ==> updated.fields.Keys == instance.fields.Keys + (supplied.Keys - {OwnerKey})
    ensures ok ==> forall k :: k in supplied && k != OwnerKey ==> updated.fields[k] == supplied[k]
    ensures ok ==> forall k :: k in instance.fields && (k !in supplied || k == OwnerKey) ==> updated.fields[k] == instance.fields[k]
    ensures updated.tags == instance.tags
  {
    updated := instance;
    var pending := supplied.Keys;
    while pending != {}
      invariant pending <= supplied.Keys
      invariant updated.tags == instance.tags
      invariant OwnerKey in supplied && OwnerKey !in pending ==>
        supplied[OwnerKey].UserRef? && updated.user == supplied[OwnerKey].user
      invariant OwnerKey !in supplied || OwnerKey in pending ==> updated.user == instance.user
      invariant updated.fields.Keys == instance.fields.Keys + (supplied.Keys - pending - {OwnerKey})
      invariant forall k :: k in supplied && k !in pending && k != OwnerKey ==> updated.fields[k] == supplied[k]
      invariant forall k :: k in instance.fields && (k !in supplied || k == OwnerKey) ==> updated.fields[k] == instance.fields[k]
      decreases pending
    {
      var k :| k in pending;
      if k == OwnerKey {
        if !supplied[k].UserRef? {
          return updated, false;
        }
        updated := updated.(user := supplied[k].user);
      } else {
        updated := updated.(fields := updated.fields[k := supplied[k]]);
      }
      pending := pending - {k};
    }
    ok := true;
  }

  class Store {
    var tags: map<TagId, Tag>
    var nextTagId: TagId
    var recipes: map<RecipeId, Recipe>
    var nextRecipeId: RecipeId

    /** The tables as a value. */
    ghost function Snapshot(): Db
      reads this
    {
      Db(tags, nextTagId, recipes, nextRecipeId)
    }

    ghost predicate Valid()
      reads this
    {
      ValidDb(Snapshot())
    }

    /** Empty tables; auto-increment ids start at 1. */
    constructor ()
      ensures Valid()
      ensures tags == map[] && recipes == map[] && nextTagId == 1 && nextRecipeId == 1
    {
      tags, nextTagId := map[], 1;
      recipes, nextRecipeId := map[], 1;
    }

    /** `Tag.objects.get_or_create(user=actor, name=name)`. */
    method GetOrCreateTag(actor: UserId, name: string) returns (r: Lookup)
      requires Valid()
      modifies this
      ensures Valid()
      ensures (Snapshot(), r) == FindOrMake(old(Snapshot()), Tag(actor, name))
    {
      var key := Tag(actor, name);
      var found := Matches(tags, key);
      if found == {} {
        r := Got(nextTagId, true);
        tags := tags[nextTagId := key];
        nextTagId := nextTagId + 1;
      } else if |found| == 1 {
        var id :| id in found;
        Singleton(found, id);
        r := Got(id, false);
      } else {
        r := MultipleObjectsReturned;
      }
    }

    /** `_get_or_create_tags(tags, recipe)`: find or make each tag for the actor and add it to
        the recipe's relation; `false` when a lookup raised, with the earlier writes kept. */
    method GetOrCreateTags(actor: UserId, rid: RecipeId, payloads: seq<TagData>) returns (ok: bool)
      requires Valid() && rid in recipes
      modifies this
      ensures Valid()
      ensures (Snapshot(), ok) == AttachAll(old(Snapshot()), actor, rid, payloads)
    {
      var i := 0;
      while i < |payloads|
        invariant 0 <= i <= |payloads|
        invariant Valid() && rid in recipes
        invariant AttachAll(Snapshot(), actor, rid, payloads[i..]) == AttachAll(old(Snapshot()), actor, rid, payloads)
      {
        ghost var before := Snapshot();
        assert payloads[i..][0] == payloads[i] && payloads[i..][1..] == payloads[i + 1..];
        ghost var step := FindOrMake(before, Tag(actor, payloads[i].name));
        AttachUnfold(before, actor, rid, payloads[i..]);
        var r := GetOrCreateTag(actor, payloads[i].name);
        assert Snapshot() == step.0 && r == step.1;
        if r.MultipleObjectsReturned? {
          return false;
        }
        recipes := recipes[rid := recipes[rid].(tags := recipes[rid].tags + {r.id})];
        assert Snapshot() == AddTag(step.0, rid, r.id);
        i := i + 1;
      }
      assert payloads[i..] == [];
      return true;
    }

    /** `create(validated_data)`: insert the row owned by the actor, then attach the tags. */
    method CreateRecipe(actor: UserId, data: Payload) returns (rid: RecipeId, ok: bool)
      requires Valid()
      modifies this
      ensures Valid()
      ensures (Snapshot(), rid, ok) == CreateResult(old(Snapshot()), actor, data)
    {
      var ps := TagsOrEmpty(data.tags);
      rid := nextRecipeId;
      recipes := recipes[rid := Recipe(actor, data.fields - {OwnerKey}, {})];
      nextRecipeId := nextRecipeId + 1;
      assert Snapshot() == InsertRecipe(old(Snapshot()), actor, data.fields);
      ok := GetOrCreateTags(actor, rid, ps);
    }

    /** The `setattr` loop over the remaining validated data, then `instance.save()`;
        `false`, and nothing saved, when a `setattr` raised. */
    method SaveInstance(rid: RecipeId, supplied: map<string, Value>) returns (ok: bool)
      requires Valid() && rid in recipes
      modifies this
      ensures Valid()
      ensures ok == Assignable(supplied)
      ensures ok ==> Snapshot() == SaveFields(old(Snapshot()), rid, supplied)
      ensures !ok ==> Snapshot() == old(Snapshot())
    {
      var instance := recipes[rid];
      var updated;
      updated, ok := SetAttrs(instance, supplied);
      if ok {
        assert updated.fields == instance.fields + (supplied - {OwnerKey});
        assert updated == Assign(instance, supplied);
        recipes := recipes[rid := updated];
      }
    }

    /** `update(instance, validated_data)` for the recipe stored under `rid`. */
    method UpdateRecipe(actor: UserId, rid: RecipeId, data: Payload) returns (ok: bool)
      requires Valid() && rid in recipes
      modifies this
      ensures Valid()
      ensures (Snapshot(), ok) == UpdateResult(old(Snapshot()), actor, rid, data)
    {
      ok := true;
      if data.tags.Some? {
        recipes := recipes[rid := recipes[rid].(tags := {})];
        assert Snapshot() == ClearTags(old(Snapshot()), rid);
        ok := GetOrCreateTags(actor, rid, data.tags.value);
        if !ok {
          return;
        }
      }
      ok := SaveInstance(rid, data.fields);
    }
  }
}
