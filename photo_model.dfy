/** The decoded shapes of the photo-search response (Model/PhotoModel.swift). */
module Model {
  import opened Wrappers

  /** The image addresses of one photo; only the `regular` size is decoded. */
  datatype URLS = URLS(regular: string)

  /** One photo of a search response: its identifier and image addresses. */
  datatype PhotoModel = PhotoModel(id: string, urls: URLS)

  /** The response envelope; `results` is optional, so a payload without it still decodes. */
  datatype PhotoAPIResponse = PhotoAPIResponse(results: Option<seq<PhotoModel>>)
}
