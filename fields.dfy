/**
 The field lists of `TagSerializer`, `RecipeSerializer` and `RecipeDetailSerializer`,
 and the payload shapes they admit. A request body is reduced to its validated form
 by keeping only the declared, writable keys; everything else the client sends
 (an `id`, a `user`, an unknown key) is dropped before `create` or `update` runs.
 */
module SerializerFields {

  datatype Option<T> = None | Some(value: T)

  /** A value bound to a key of `validated_data`: a scalar column value (title, time in
      minutes, price, link, description), which the model never inspects, or a reference to
      a user row, the only kind the recipe's `user` foreign key accepts. */
  datatype Value = Text(text: string) | Whole(n: int) | Decimal(unscaled: int, places: nat) | UserRef(user: nat)

  /** `TagSerializer.Meta`. */
  const TagFields: seq<string> := ["id", "name"]
  const TagReadOnly: seq<string> := ["id"]

  /** `RecipeSerializer.Meta`; the detail serializer appends `description`. */
  const RecipeFields: seq<string> := ["id", "title", "time_minutes", "price", "link", "tags"]
  const RecipeReadOnly: seq<string> := ["id"]
  const RecipeDetailFields: seq<string> := RecipeFields + ["description"]

  /** The nested relation field, handled apart from the scalar columns. */
  const TagsKey: string := "tags"

  /** The recipe's owner attribute; it is not among the declared fields. */
  const OwnerKey: string := "user"

  function DeclaredFields(detail: bool): seq<string>
  {
    if detail then RecipeDetailFields else RecipeFields
  }

  /** The keys of a tag payload a client can set. */
  function TagWritable(): set<string>
  {
    set f | f in TagFields && f !in TagReadOnly
  }

  /** The scalar keys a recipe payload can set: declared, not read-only, not the nested `tags`. */
  function ScalarWritable(detail: bool): set<string>
  {
    set f | f in DeclaredFields(detail) && f !in RecipeReadOnly && f != TagsKey
  }

  /** A nested tag object as the client sends it. */
  datatype RawTag = RawTag(id: Option<nat>, name: string)

  /** A validated nested tag: `id` is read-only, so only `name` survives. */
  datatype TagData = TagData(name: string)

  /** A request body: scalar keys, and the `tags` key when it is present. */
  datatype RawPayload = RawPayload(fields: map<string, Value>, tags: Option<seq<RawTag>>)

  /** `validated_data`: only writable scalar keys, and the validated tag list when supplied. */
  datatype Payload = Payload(fields: map<string, Value>, tags: Option<seq<TagData>>)

  function ValidateTags(raw: seq<RawTag>): (r: seq<TagData>)
    ensures |r| == |raw|
    ensures forall i :: 0 <= i < |raw| ==> r[i].name == raw[i].name
  {
    if raw == [] then [] else [TagData(raw[0].name)] + ValidateTags(raw[1..])
  }

  /** The key filtering a serializer applies to a request body. The per-field checks
      (types, lengths, trimming of whitespace around a name) are not part of this model:
      a value is taken as the validated value. */
  function Validate(raw: RawPayload, detail: bool): Payload
  {
    Payload(
      map k | k in raw.fields && k in ScalarWritable(detail) :: raw.fields[k],
      match raw.tags
      case None => None
      case Some(ts) => Some(ValidateTags(ts)))
  }

  /** The writable key sets, spelled out from the field lists. */
  lemma WritableKeys()
    ensures TagWritable() == {"name"}
    ensures ScalarWritable(false) == {"title", "time_minutes", "price", "link"}
    ensures ScalarWritable(true) == {"title", "time_minutes", "price", "link", "description"}
  {
    assert "id" in TagReadOnly && "id" in RecipeReadOnly;
    assert "name" in TagFields;
    assert RecipeDetailFields == ["id", "title", "time_minutes", "price", "link", "tags", "description"];
    assert "title" in RecipeFields && "time_minutes" in RecipeFields;
    assert "price" in RecipeFields && "link" in RecipeFields;
    assert "description" in RecipeDetailFields;
  }

  /** A validated payload keeps exactly the writable keys the client sent, with their
      values; a `user` or an `id` the client sent never reaches `create` or `update`. */
  lemma ValidateKeepsWritable(raw: RawPayload, detail: bool)
    ensures Validate(raw, detail).fields.Keys == raw.fields.Keys * ScalarWritable(detail)
    ensures forall k :: k in Validate(raw, detail).fields ==> Validate(raw, detail).fields[k] == raw.fields[k]
    ensures OwnerKey !in Validate(raw, detail).fields && "id" !in Validate(raw, detail).fields
    ensures TagsKey !in Validate(raw, detail).fields
    ensures Validate(raw, detail).tags.Some? <==> raw.tags.Some?
    ensures raw.tags.Some? ==> |Validate(raw, detail).tags.value| == |raw.tags.value|
  {
    WritableKeys();
  }
}
