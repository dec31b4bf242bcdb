/** A seller's own product list (src/components/profile/seller/MyProducts.tsx):
    loading it, deleting one product and deleting them all. A list changes
    only after the server has confirmed the deletion. */
module SellerProducts {
  import opened Wrappers
  import opened JsArray
  import Json
  import Browser
  import Uploads

  /** A product as the seller's list receives it. */
  datatype SellerProduct = SellerProduct(id: string, name: string, price: real,
                                         images: Option<seq<string>>, createdAt: string)

  const DeleteFailedMessage := "Failed to delete"
  const DeleteAllFailedMessage := "Failed to delete all"

  /** `toImageUrl`: the URL of the product's first image, if it has one. */
  function ImageUrl(p: SellerProduct): (url: Option<string>)
    ensures url.Some? <==> p.images.Some? && |p.images.value| > 0 && p.images.value[0] != ""
    ensures url.Some? ==> url.value == Uploads.Prefix + p.images.value[0]
  {
    Uploads.FirstImageUrl(p.images)
  }

  /** The filter of `handleDelete`: `p.id !== id`. */
  function Other(id: string): SellerProduct -> bool {
    (p: SellerProduct) => p.id != id
  }

  /** The list after a confirmed deletion: exactly the products with another
      id remain. */
  lemma DeleteRemovesExactly(products: seq<SellerProduct>, id: string)
    ensures forall p :: p in Keep(products, Other(id)) <==> p in products && p.id != id
  {
    KeepMembership(products, Other(id));
  }

  /** The remaining products keep their order: deleting from a concatenation
      deletes from each part, and a list without that id is left as it is. */
  lemma DeleteKeepsOrder(front: seq<SellerProduct>, back: seq<SellerProduct>, id: string)
    ensures Keep(front + back, Other(id)) == Keep(front, Other(id)) + Keep(back, Other(id))
    ensures (forall i :: 0 <= i < |front| ==> front[i].id != id) ==> Keep(front, Other(id)) == front
  {
    KeepAppend(front, back, Other(id));
    if forall i :: 0 <= i < |front| ==> front[i].id != id {
      KeepAll(front, Other(id));
    }
  }

  /** Deleting the same id twice is deleting it once. */
  lemma DeleteIdempotent(products: seq<SellerProduct>, id: string)
    ensures Keep(Keep(products, Other(id)), Other(id)) == Keep(products, Other(id))
  {
    KeepAll(Keep(products, Other(id)), Other(id));
  }

  /** The outcome of the list request. `Listed(None)` is a `null` body. */
  datatype LoadResponse = Listed(data: Option<seq<SellerProduct>>) | LoadFailed

  /** The outcome of a delete request. */
  datatype DeleteResponse = Deleted | DeleteRefused(message: Option<string>) | DeleteUnreachable(reason: string)

  class MyProducts {
    var products: seq<SellerProduct>
    var loading: bool

    constructor()
      ensures products == [] && loading
    {
      products := [];
      loading := true;
    }

    /** The "Delete All" button shows only for a non-empty list, the
        "No products yet." line only for an empty one. */
    predicate ShowsDeleteAll()
      reads this
    {
      !loading && |products| > 0
    }

    /** Once loaded, the list shows either the empty line or the Delete All
        button, never both. */
    predicate ShowsEmptyLine()
      reads this
      ensures !loading ==> (ShowsEmptyLine() <==> !ShowsDeleteAll())
      ensures ShowsEmptyLine() ==> !ShowsDeleteAll()
    {
      !loading && |products| == 0
    }

    /** `load`: without a token the request is not sent; a response replaces
        the list (`null` reads as the empty list); a failure keeps it.
        `loading` ends false on every path. */
    method Load(store: Browser.LocalStorage, response: LoadResponse) returns (requested: bool)
      modifies this
      ensures !loading
      ensures requested <==> store.HasToken()
      ensures requested && response.Listed? ==> products == response.data.GetOr([])
      ensures !requested || response.LoadFailed? ==> products == old(products)
    {
      requested := store.HasToken();
      if requested {
        match response {
          case Listed(data) => products := data.GetOr([]);
          case LoadFailed =>
        }
      }
      loading := false;
    }

    /** `handleDelete(id)`: a declined confirm sends nothing; a confirmed
        deletion removes the products with that id once the server agrees,
        and a refusal or a failure alerts and keeps the list. */
    method HandleDelete(id: string, confirmed: bool, response: DeleteResponse)
      returns (requested: bool, alert: Option<string>)
      modifies this`products
      ensures requested == confirmed
      ensures requested && response.Deleted? ==> products == Keep(old(products), Other(id)) && alert == None
      ensures requested && response.DeleteRefused? ==>
        products == old(products) && alert == Some(Json.MessageOr(response.message, DeleteFailedMessage))
      ensures requested && response.DeleteUnreachable? ==>
        products == old(products) && alert == Some(response.reason)
      ensures !requested ==> products == old(products) && alert == None
    {
      if !confirmed {
        return false, None;
      }
      requested := true;
      match response {
        case Deleted =>
          products := Keep(products, Other(id));
          alert := None;
        case DeleteRefused(message) =>
          alert := Some(Json.MessageOr(message, DeleteFailedMessage));
        case DeleteUnreachable(reason) =>
          alert := Some(reason);
      }
    }

    /** `handleDeleteAll`: the list empties only after a confirmed deletion
        the server agreed to. */
    method HandleDeleteAll(confirmed: bool, response: DeleteResponse)
      returns (requested: bool, alert: Option<string>)
      modifies this`products
      ensures requested == confirmed
      ensures requested && response.Deleted? ==> products == [] && alert == None
      ensures requested && response.DeleteRefused? ==>
        products == old(products) && alert == Some(Json.MessageOr(response.message, DeleteAllFailedMessage))
      ensures requested && response.DeleteUnreachable? ==>
        products == old(products) && alert == Some(response.reason)
      ensures !requested ==> products == old(products) && alert == None
    {
      if !confirmed {
        return false, None;
      }
      requested := true;
      match response {
        case Deleted =>
          products := [];
          alert := None;
        case DeleteRefused(message) =>
          alert := Some(Json.MessageOr(message, DeleteAllFailedMessage));
        case DeleteUnreachable(reason) =>
          alert := Some(reason);
      }
    }
  }
}
