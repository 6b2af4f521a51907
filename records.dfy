/** The rows of the two database tables and the category names the admin pages use. */
module Records {

  /** A category an admin can pick; its slug is the value stored in the `category` column. */
  datatype Category = Track | Soccer | Football | Basketball | BestOf {

    function Slug(): string {
      match this
      case Track => "track"
      case Soccer => "soccer"
      case Football => "football"
      case Basketball => "basketball"
      case BestOf => "best-of"
    }
  }

  /** A row of the `images` table (timestamps are not modelled). Category and visibility are
      kept as the strings the database holds. */
  datatype ImageRecord = ImageRecord(
    id: string,
    storagePath: string,
    category: string,
    width: int,
    height: int,
    order: int,
    visibility: string)

  /** A row of the `featured_images` table (timestamps are not modelled). */
  datatype FeaturedImage = FeaturedImage(id: string, imageId: string, order: int, enabled: bool)
}
