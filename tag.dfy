/** A `Tag` instance and its `save`, which normalises the colour and fills an empty slug
    before the row is written. */
module TagModel {

  import opened Wrappers
  import opened AppModels
  import opened Database

  class Tag {
    /** The primary key; `None` until the tag is first saved. */
    var pk: Option<TagId>
    var name: string
    var color: string
    var slug: string

    /** `Tag(name=..., color=..., slug=...)`, not yet saved. */
    constructor (name: string, color: string, slug: string)
      ensures pk == None && this.name == name && this.color == color && this.slug == slug
    {
      pk := None;
      this.name := name;
      this.color := color;
      this.slug := slug;
    }

    function Row(): (row: TagRow)
      reads this
      ensures row.name == name && row.color == color && row.slug == slug
    {
      TagRow(name, color, slug)
    }

    /** `Tag.save`: the colour is upper-cased and an empty slug becomes `slugify(name)`
        on the instance, then the row is inserted or updated. A unique-constraint failure
        leaves the table as it was but the instance normalised. */
    method Save(db: Db, slugify: string -> string) returns (res: Result<TagId, DbError>)
      requires db.Valid()
      modifies this`color, this`slug, this`pk, db`tags, db`nextId
      ensures db.Valid()
      ensures name == old(name)
      ensures color == Upper(old(color))
      ensures slug == if old(slug) == "" then slugify(old(name)) else old(slug)
      ensures res.Ok? <==> forall t :: t in old(db.tags) && (old(pk).None? || t != old(pk).value) ==>
        old(db.tags)[t].name != name && old(db.tags)[t].slug != slug
      ensures res.Ok? ==> pk == Some(res.value) && db.tags == old(db.tags)[res.value := Row()]
      ensures res.Ok? && old(pk).Some? ==> res.value == old(pk).value
      ensures res.Ok? && old(pk).None? ==> res.value !in old(db.tags)
      ensures res.Err? ==> res.error == IntegrityError && pk == old(pk) && db.tags == old(db.tags)
    {
      color := Upper(color);
      if slug == "" {
        slug := slugify(name);
      }
      res := db.SaveTag(pk, TagRow(name, color, slug));
      if res.Ok? {
        pk := Some(res.value);
      }
    }
  }
}
