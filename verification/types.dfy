/** The records shared by the pages and stores (src/types.ts). */
module Types {
  import opened Wrappers
  import opened Records

  /** A rankable media item of a public template. */
  datatype MediaItem = MediaItem(id: string, title: string, imageUrl: Option<string>)

  /** The six rows of a public tier list; `U` is "unranked". */
  datatype TierId = S | A | B | C | D | U

  /** A row of a user dataset (`labelText` is the source's `label`, a Dafny keyword). */
  datatype Tier = Tier(id: string, labelText: string, color: string)

  /** An item of a user dataset; CSV cells make its attribute values text. */
  datatype DatasetItem = DatasetItem(id: string, title: string, imageUrl: Option<string>,
                                     attributes: Option<Record<string>>)

  /** A user dataset; `placements` maps item ids to tier ids. */
  datatype Dataset = Dataset(id: string, ownerId: string, title: string, description: Option<string>,
                             items: seq<DatasetItem>, tiers: seq<Tier>,
                             placements: Option<Record<string>>,
                             createdAt: string, updatedAt: string, isPublished: bool)
}
