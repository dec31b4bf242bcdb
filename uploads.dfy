/** Where the backend serves uploaded images, and the URL of a product's
    first image (`formatImage` in dress/page.tsx, `toImageUrl` in
    MyProducts.tsx: the two are the same expression). */
module Uploads {
  import opened Wrappers

  const Prefix := "http://localhost:3000/uploads/"

  /** `(p.images && p.images[0]) ? Prefix + p.images[0] : undefined`. There
      is a URL exactly when the first image name is non-empty; it is the
      uploads prefix followed by that name, so it is always an absolute
      `http` URL that names the first image and no other. */
  function FirstImageUrl(images: Option<seq<string>>): (url: Option<string>)
    ensures url.Some? <==> images.Some? && |images.value| > 0 && images.value[0] != ""
    ensures url.Some? ==> Prefix <= url.value && url.value[|Prefix|..] == images.value[0]
  {
    match images
    case Some(names) => if |names| > 0 && names[0] != "" then Some(Prefix + names[0]) else None
    case None => None
  }
}
