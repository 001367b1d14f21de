/**
  The shapes of the media provider's payloads as the client and the server
  read them: a GIF with its image renditions, and a response page carrying
  the GIFs plus pagination metadata. Widths, heights and sizes are kept as
  the strings the provider sends.
 */
module GiphyTypes {
  import opened Common

  /** The full-resolution rendition: the copy and download target. */
  datatype OriginalImage = OriginalImage(url: string, width: string, height: string, size: string)

  /** A resized rendition (`fixed_height`, `fixed_width`). */
  datatype SizedImage = SizedImage(url: string, width: string, height: string)

  /** The renditions the client reads. `previewGif` carries a url only. */
  datatype Images = Images(
    original: OriginalImage,
    fixedHeight: SizedImage,
    fixedWidth: SizedImage,
    previewGifUrl: string)

  datatype Gif = Gif(
    id: string,
    title: string,
    images: Images,
    sourceTld: string,
    source: string,
    importDatetime: string,
    embedUrl: string,
    url: string)

  datatype Pagination = Pagination(totalCount: int, count: int, offset: int)

  /**
    One page of provider results. `pagination` is optional because the client
    guards on its presence before reading `total_count`.
   */
  datatype GiphyResponse = GiphyResponse(data: seq<Gif>, pagination: Option<Pagination>)
}
