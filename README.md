# Recipe serializer model

A Dafny model of the nested-tag handling in the recipe API's `RecipeSerializer`. A client
creates or updates a recipe whose payload may carry a list of tag objects. Each tag is
looked up by the requesting user and its name and made when missing (`get_or_create`),
then attached to the recipe's many-to-many `tags` relation.

The model has three modules:

- `SerializerFields` (`fields.dfy`) holds the field lists of `TagSerializer`,
  `RecipeSerializer` and `RecipeDetailSerializer`. It also holds the reduction of a request
  body to `validated_data`: only the declared, writable keys survive, so an `id` or a
  `user` the client sends never reaches `create` or `update`.
- `RecipeModel` (`model.dfy`) holds both tables as one value (`Db`). It defines
  `get_or_create`, the `_get_or_create_tags` loop, `create` and `update` as functions on
  that value, and proves the lemmas below about them.
- `RecipeStore` (`store.dfy`) is the ORM as an object: a `Store` class whose fields are
  the tag table, the recipe table and their auto-increment counters. Its methods change
  those fields in place. Each method is proved to leave the store exactly as the matching
  `RecipeModel` function says, so every lemma about the function holds of the method.

The many-to-many relation is a set of tag ids, since `add` of an id already present
changes nothing.

The acting user is an explicit parameter; in the source it is
`self.context['request'].user`. The owner of a created recipe is also that user, as the
API test at app/recipe/tests/test_recipe_api.py:111 expects. The code that supplies it
(the view) is not part of this model.

`setattr` in `update` writes any attribute it is given. A `user` key would set the
owner, as a foreign-key assignment does, and any value other than a user would raise.
The model does the same (`RecipeModel.Assign`, `RecipeModel.UpdateAssignsOwner`). The
owner stays fixed only because the serializer's field list drops `user` before `update`
runs (`RecipeModel.UpdateKeepsOwner`).

Scalar columns (title, time in minutes, price, link, description) are opaque values.
Tag names are compared by exact string equality. The model takes the validated name as
given.

`get_or_create` raises `MultipleObjectsReturned` when two rows match one (user, name).
Such rows cannot come from this path in a sequential run (`RecipeModel.AttachPreservesUnique`).
They can come from two requests racing the same new name, or from the tag endpoints
renaming a tag. The model
keeps that error: the loop stops, and the writes made before it stay. No transaction
appears in the code, so this follows the code.

## Model

| member | source | states |
|---|---|---|
| SerializerFields.ValidateTags | app/recipe/serializers.py:7-12 | a validated tag list has one entry per payload, carrying that payload's name; the read-only `id` is dropped |
| SerializerFields.WritableKeys | app/recipe/serializers.py:7-20 | the writable keys are exactly `name` for a tag, `title`, `time_minutes`, `price` and `link` for a recipe, plus `description` for the detail serializer (lines 49-52) |
| SerializerFields.ValidateKeepsWritable | app/recipe/serializers.py:14-20 | validated data holds exactly the writable scalar keys the client sent, with their values; `user`, `id` and `tags` are never scalar keys; `tags` is present exactly when sent, one entry per payload |
| RecipeModel.FindOrMake | app/recipe/serializers.py:26 | a lookup keeps the tables valid, leaves the recipe table alone, and any id it returns is a tag row |
| RecipeModel.FindOrMakeSpec | app/recipe/serializers.py:26 | no match makes one row under the next id with the asked owner and name; exactly one match returns that row and changes nothing; two or more raise and change nothing; a returned row is the only match afterwards |
| RecipeModel.FindOrMakeIdempotent | app/recipe/serializers.py:26 | a second lookup with the same (user, name) returns the row the first returned and makes nothing; the first made at most that row |
| RecipeModel.UniqueMatches | app/recipe/serializers.py:26 | with at most one row per (user, name), a lookup matches at most one row, so it cannot raise |
| RecipeModel.AddTag | app/recipe/serializers.py:27 | adding a tag id grows only that recipe's relation, by that id, and keeps the tables valid |
| RecipeModel.AttachAll | app/recipe/serializers.py:22-27 | the loop keeps the tables valid and keeps the set of recipes |
| RecipeModel.AttachFrame | app/recipe/serializers.py:22-27 | the loop changes only the target recipe's relation, which only grows; owner and columns stay; every existing tag row stays as it was |
| RecipeModel.AttachOwnedByActor | app/recipe/serializers.py:24-27 | every tag the loop attaches, and every row it makes, belongs to the acting user and carries a supplied name; another user's tag is never attached |
| RecipeModel.AttachKeepsMatches | app/recipe/serializers.py:26 | a (user, name) that already has rows keeps exactly those rows through the loop |
| RecipeModel.AttachResolves | app/recipe/serializers.py:22-27 | a completed loop adds to the relation exactly the actor's rows named by the payloads, and each supplied name then has exactly one such row |
| RecipeModel.AttachReusesResolved | app/recipe/serializers.py:25-27 | when every supplied name already has exactly one row, the loop completes and makes no row |
| RecipeModel.AttachPreservesUnique | app/recipe/serializers.py:26 | with at most one row per (user, name) beforehand, the loop never raises and that still holds afterwards |
| RecipeModel.ResolvedNames | app/recipe/serializers.py:25-27 | when each name has exactly one of the user's rows, the names of the resolved rows are exactly the supplied names |
| RecipeModel.InsertRecipe | app/recipe/serializers.py:32 | the new row goes under a fresh id, with the actor as owner, the other given keys as columns and no tags; nothing else changes |
| RecipeModel.CreateResult | app/recipe/serializers.py:29-34 | create keeps the tables valid and adds exactly one recipe, under the next id |
| RecipeModel.CreateFrame | app/recipe/serializers.py:31-32 | the created recipe is fresh, owned by the actor and holds exactly the supplied columns, a `user` key never being one; every earlier recipe and tag row stays |
| RecipeModel.CreateWithoutTags | app/recipe/serializers.py:31-33 | create with no `tags` key, or an empty list, completes with an empty relation and leaves the tag table alone |
| RecipeModel.CreateAttachesSuppliedNames | app/recipe/serializers.py:31-33 | every attached tag belongs to the actor; a completed create attaches exactly the actor's rows named by the payloads, whose names are exactly the supplied names |
| RecipeModel.CreatePreservesUnique | app/recipe/serializers.py:29-34 | create keeps at most one tag per (user, name) and then never raises |
| RecipeModel.CreateTwiceMakesNoNewTags | app/recipe/serializers.py:29-34 | a second create with the same tag names completes, reuses the rows the first made, and makes none |
| RecipeModel.ClearTags | app/recipe/serializers.py:40 | clearing empties one recipe's relation and keeps every tag row |
| RecipeModel.SaveFields | app/recipe/serializers.py:43-46 | saving applies `setattr` to one recipe only: a supplied `user` sets its owner, other keys overwrite its columns; the tag table and other recipes stay |
| RecipeModel.UpdateResult | app/recipe/serializers.py:36-47 | update keeps the tables valid and keeps the set of recipes |
| RecipeModel.UpdateWithoutTags | app/recipe/serializers.py:38-39 | update with `tags` absent leaves the relation and the tag table unchanged, and completes exactly when every `setattr` is accepted |
| RecipeModel.UpdateReplacesTags | app/recipe/serializers.py:39-41 | with `tags` supplied, every attached tag belongs to the actor; a completed update replaces the relation by exactly the actor's rows named by the payloads, whose names are the supplied names |
| RecipeModel.UpdateEmptyTagsClears | app/recipe/serializers.py:39-41 | update with an empty `tags` list clears the relation, makes no row, and completes exactly when every `setattr` is accepted |
| RecipeModel.UpdateSetsSuppliedFields | app/recipe/serializers.py:43-46 | a completed update sets each supplied column and keeps every other column; its key set is the old one plus the supplied keys other than `user`; one that raised keeps every column (tests: app/recipe/tests/test_recipe_api.py:113-129) |
| RecipeModel.UpdateAssignsOwner | app/recipe/serializers.py:43-46 | a supplied user reference becomes the owner of a completed update; any other value under `user` makes the update raise; without a `user` key the owner stays |
| RecipeModel.UpdateKeepsOwner | app/recipe/serializers.py:14-20 | whatever body the client sends, a `user` or an `id` among it, the validated update keeps the owner, adds no column outside the writable fields, and leaves other recipes and existing tag rows alone (tests: app/recipe/tests/test_recipe_api.py:155-165) |
| RecipeModel.UpdateRaisingLeavesRelationCleared | app/recipe/serializers.py:38-46 | when the first supplied name meets two rows, update raises after the clear: no tags, old columns, no row made |
| RecipeModel.UpdatePreservesUnique | app/recipe/serializers.py:36-47 | update keeps at most one tag per (user, name), and then raises exactly when a `setattr` is refused |
| RecipeStore.SetAttrs | app/recipe/serializers.py:43-44 | the `setattr` loop fails exactly when `user` is given a non-user; otherwise a supplied `user` becomes the owner, supplied columns win, the others stay, no key is lost and the relation is untouched |
| RecipeStore.Store.GetOrCreateTag | app/recipe/serializers.py:26 | the in-place lookup leaves the store and returns the outcome exactly as `FindOrMake` says, and keeps it valid |
| RecipeStore.Store.GetOrCreateTags | app/recipe/serializers.py:22-27 | the in-place loop leaves the store and returns the outcome exactly as `AttachAll` says |
| RecipeStore.Store.CreateRecipe | app/recipe/serializers.py:29-34 | the in-place create leaves the store, the new id and the outcome exactly as `CreateResult` says |
| RecipeStore.Store.SaveInstance | app/recipe/serializers.py:43-46 | the in-place `setattr` loop and save fail exactly when a `setattr` is refused, leaving the store as it was; otherwise they leave it exactly as `SaveFields` says |
| RecipeStore.Store.UpdateRecipe | app/recipe/serializers.py:36-47 | the in-place update leaves the store and the outcome exactly as `UpdateResult` says |

## Left out

- The tag lookup key is the validated name taken as given, compared by exact string equality. DRF's field processing, such as trimming whitespace around a name, is left out with the other field validation below.
- Atomicity: the code shows no transaction around the clear and re-attach, so a lookup that raises leaves a recipe partly relinked (`RecipeModel.UpdateRaisingLeavesRelationCleared`). A design that scopes the two in one transaction would roll that back; the model follows the code.
- The view layer (`perform_create` passing `user`, the queryset scoped to the owner, ordering by `-id`, 404s, 401s, delete, image upload) and the tag and ingredient endpoints: their code is not part of this model. The owner of a created recipe is taken to be the acting user; a `user` key among the create data is overridden by it.
- Concurrency: requests are modelled one at a time. Two racing `get_or_create` calls for the same new name can both insert, which leads to the duplicate rows that make a later lookup raise; no uniqueness constraint on (user, name) is visible, since the model classes are not part of this model.
- Other attributes under `setattr`: a key other than `user` is treated as a plain column, including `id` or `tags`, which Django would treat specially. Validated data never carries them (`SerializerFields.ValidateKeepsWritable`).
- Ingredients: no ingredient serializer exists in the serializer module, so there is nothing to model.
- DRF field validation (a missing tag name, required columns on a full update, types, lengths, the `Decimal` format of `price`): formats are not checked. Scalars are opaque values and only their presence matters. `Validate` keeps the writable keys the client sent.
- The request context: the acting user is a parameter instead of `self.context['request'].user`.
- Serialisation of responses (`to_representation`, the `id` in the output) is not modelled. Only the read-only status of `id` is.
- `wait_for_db` (a retry loop with sleeps around database availability), the `app.calc` tests and user accounts, tokens and passwords: outside the serializer core.
- Database ids are unbounded naturals from an auto-increment counter starting at 1, with no overflow.
