/** A gallery image document as the API returns it. */
module GalleryRecord {

  /**
   * The fields of a stored image. The component reads `imageUrl` and
   * `title`, which the stored documents do not carry; only `category` takes
   * part in the component's logic. `labelText` is the schema's `label`
   * path (`label` is a reserved word in Dafny).
   */
  datatype GalleryImage = GalleryImage(id: string, url: string, category: string, labelText: string, span: string)
}
