/**
 * The service layer: validates a product before it can reach storage and
 * turns the repository's "not found" into the service's own error for
 * Get and Delete.
 */
module Service {
  import opened Models
  import opened Repository

  const MaxNameLength := 500
  const MaxDescriptionLength := 2000

  const NameRequired: GoString := "name is required"
  const NameTooLong: GoString := "name must be at most 500 characters"
  const DescriptionTooLong: GoString := "description must be at most 2000 characters"
  const PriceNegative: GoString := "price cannot be negative"

  /** The ErrValidation sentinel's text followed by the "%w: " separator. */
  const ValidationPrefix: GoString := "validation error: "

  /**
   * The errors a service call returns: a wrapped ErrValidation, the
   * ErrNotFound sentinel, or a repository error passed through as is.
   */
  datatype ServiceError = ErrValidation(reason: GoString) | ErrNotFound | Repo(cause: RepoError) {
    /**
     * err.Error(): "%w: reason" prints the sentinel's text, a colon and the
     * reason; a repository error keeps its own text.
     */
    function Error(): (r: GoString)
      ensures ErrValidation? ==> |r| == |ValidationPrefix| + |reason|
                                 && r[..|ValidationPrefix|] == ValidationPrefix
                                 && r[|ValidationPrefix|..] == reason
      ensures ErrNotFound? ==> r == "product not found"
      ensures Repo? ==> r == cause.Error()
    {
      match this
      case ErrValidation(reason) => ValidationPrefix + reason
      case ErrNotFound => "product not found"
      case Repo(cause) => cause.Error()
    }
  }

  /** The data-model invariant of a product that may be stored. */
  predicate ValidProduct(p: Product) {
    && p.name != []
    && |p.name| <= MaxNameLength
    && |p.description| <= MaxDescriptionLength
    && p.price >= 0
  }

  /** Every stored row is a valid product. */
  ghost predicate StoredValid(t: map<int, Product>) {
    forall id | id in t :: ValidProduct(t[id])
  }

  /**
   * validateProduct: the checks run in order and the first failing one is
   * reported, so an empty name wins over every other fault.
   */
  function ValidateProduct(p: Product): (err: Option<ServiceError>)
    ensures err.None? <==> ValidProduct(p)
    ensures err.Some? ==> err.value.ErrValidation?
    ensures p.name == [] ==> err == Some(ErrValidation(NameRequired))
    ensures err == Some(ErrValidation(NameTooLong)) <==> p.name != [] && |p.name| > MaxNameLength
    ensures err == Some(ErrValidation(DescriptionTooLong)) <==>
              p.name != [] && |p.name| <= MaxNameLength && |p.description| > MaxDescriptionLength
    ensures err == Some(ErrValidation(PriceNegative)) <==>
              p.name != [] && |p.name| <= MaxNameLength && |p.description| <= MaxDescriptionLength && p.price < 0
  {
    if p.name == [] then Some(ErrValidation(NameRequired))
    else if |p.name| > MaxNameLength then Some(ErrValidation(NameTooLong))
    else if |p.description| > MaxDescriptionLength then Some(ErrValidation(DescriptionTooLong))
    else if p.price < 0 then Some(ErrValidation(PriceNegative))
    else None
  }

  /** A price of -1 is refused and a price of 0 accepted, all else being valid. */
  lemma PriceBoundary(p: Product)
    requires p.name != [] && |p.name| <= MaxNameLength && |p.description| <= MaxDescriptionLength
    ensures ValidateProduct(p.(price := -1)) == Some(ErrValidation(PriceNegative))
    ensures ValidateProduct(p.(price := 0)) == None
  {
  }

  /**
   * The translation Get and Delete apply: the repository's not-found becomes
   * ErrNotFound, every other error is passed through unchanged.
   */
  function TranslateNotFound(e: RepoError): (r: ServiceError)
    ensures r == ErrNotFound <==> e == ProductNotFound
    ensures r != ErrNotFound ==> r == Repo(e)
    ensures !r.ErrValidation?
  {
    if e == ProductNotFound then ErrNotFound else Repo(e)
  }

  class ProductService {
    const repo: ProductRepository

    constructor (repo: ProductRepository)
      ensures this.repo == repo
    {
      this.repo := repo;
    }

    /**
     * The page arguments reach the repository, whose listing has no paging,
     * so they have no effect on the result; nothing is clamped here. A
     * listing the driver cut short comes back as a success.
     */
    method GetAllProducts(limit: int, offset: int, queryFault: Option<Fault>, scanFault: Option<ScanFault>,
                          nextStop: Option<nat>)
      returns (r: Result<seq<Product>, ServiceError>)
      requires repo.Valid()
      ensures queryFault.Some? ==> r == Err(Repo(Storage(queryFault.value)))
      ensures queryFault.None? && ScanFails(scanFault, Delivered(repo.table, nextStop)) ==>
                r == Err(Repo(Storage(scanFault.value.fault)))
      ensures queryFault.None? && !ScanFails(scanFault, Delivered(repo.table, nextStop)) ==>
                r.Ok? && RowsOf(r.value, repo.table) && |r.value| == Delivered(repo.table, nextStop)
      ensures r.Ok? && Delivered(repo.table, nextStop) == |repo.table| ==> Lists(r.value, repo.table)
    {
      var rows := repo.GetAll(queryFault, scanFault, nextStop);
      match rows
      case Ok(products) => return Ok(products);
      case Err(e) => return Err(Repo(e));
    }

    method GetProductByID(id: int, fault: Option<Fault>) returns (r: Result<Product, ServiceError>)
      requires repo.Valid()
      ensures fault.Some? ==> r == Err(Repo(Storage(fault.value)))
      ensures fault.None? && id in repo.table ==> r == Ok(repo.table[id]) && r.value.id == id
      ensures fault.None? && id !in repo.table ==> r == Err(ErrNotFound)
    {
      var found := repo.GetByID(id, fault);
      match found
      case Ok(p) => return Ok(p);
      case Err(e) => return Err(TranslateNotFound(e));
    }

    /** Validation first; only a valid product is handed to the repository. */
    method CreateProduct(p: Product, fault: Option<Fault>) returns (r: Result<Product, ServiceError>)
      requires repo.Valid()
      modifies repo
      ensures repo.Valid()
      ensures ValidateProduct(p).Some? ==> r == Err(ValidateProduct(p).value) && repo.table == old(repo.table)
      ensures ValidProduct(p) && fault.Some? ==>
                r == Err(Repo(Storage(fault.value))) && repo.table == old(repo.table)
      ensures ValidProduct(p) && fault.None? ==>
                && r.Ok? && r.value == p.(id := r.value.id)
                && r.value.id > 0 && r.value.id !in old(repo.table)
                && repo.table == old(repo.table)[r.value.id := r.value]
      ensures StoredValid(old(repo.table)) ==> StoredValid(repo.table)
    {
      var invalid := ValidateProduct(p);
      if invalid.Some? {
        return Err(invalid.value);
      }
      var created := repo.Create(p, fault);
      match created
      case Ok(q) => return Ok(q);
      case Err(e) => return Err(Repo(e));
    }

    /**
     * Validation first; the repository's error, not-found included, is
     * returned untranslated.
     */
    method UpdateProduct(p: Product, fault: Option<Fault>) returns (err: Option<ServiceError>)
      requires repo.Valid()
      modifies repo
      ensures repo.Valid()
      ensures ValidateProduct(p).Some? ==> err == ValidateProduct(p) && repo.table == old(repo.table)
      ensures ValidProduct(p) && fault.Some? ==>
                err == Some(Repo(Storage(fault.value))) && repo.table == old(repo.table)
      ensures ValidProduct(p) && fault.None? && p.id !in old(repo.table) ==>
                err == Some(Repo(ProductNotFound)) && repo.table == old(repo.table)
      ensures ValidProduct(p) && fault.None? && p.id in old(repo.table) ==>
                err == None && repo.table == old(repo.table)[p.id := p]
      ensures StoredValid(old(repo.table)) ==> StoredValid(repo.table)
    {
      err := ValidateProduct(p);
      if err.Some? {
        return;
      }
      var failed := repo.Update(p, fault);
      if failed.Some? {
        return Some(Repo(failed.value));
      }
      return None;
    }

    method DeleteProduct(id: int, fault: Option<Fault>) returns (err: Option<ServiceError>)
      requires repo.Valid()
      modifies repo
      ensures repo.Valid()
      ensures fault.Some? ==> err == Some(Repo(Storage(fault.value))) && repo.table == old(repo.table)
      ensures fault.None? && id !in old(repo.table) ==> err == Some(ErrNotFound) && repo.table == old(repo.table)
      ensures fault.None? && id in old(repo.table) ==> err == None && repo.table == old(repo.table) - {id}
      ensures StoredValid(old(repo.table)) ==> StoredValid(repo.table)
    {
      var failed := repo.Delete(id, fault);
      if failed.Some? {
        return Some(TranslateNotFound(failed.value));
      }
      return None;
    }

    /**
     * A product that was just created reads back unchanged; once deleted it
     * reads as ErrNotFound.
     */
    method CreateGetDeleteGet(p: Product) returns (created: Result<Product, ServiceError>,
                                                   read: Result<Product, ServiceError>,
                                                   deleted: Option<ServiceError>,
                                                   reread: Result<Product, ServiceError>)
      requires repo.Valid() && ValidProduct(p)
      modifies repo
      ensures repo.Valid() && repo.table == old(repo.table)
      ensures created.Ok? && created.value == p.(id := created.value.id)
      ensures read == created && deleted == None
      ensures reread == Err(ErrNotFound)
    {
      created := CreateProduct(p, None);
      read := GetProductByID(created.value.id, None);
      deleted := DeleteProduct(created.value.id, None);
      reread := GetProductByID(created.value.id, None);
    }
  }
}
