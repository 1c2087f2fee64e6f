/**
 * The HTTP adapter over the service. A request is given as what the
 * handler reads from it (path value, query, the decoded JSON body or its
 * failure) and the handler returns the response it writes. Logging is not
 * modelled.
 */
module Handlers {
  import opened Models
  import opened Strconv
  import opened Http
  import Apierr
  import opened Repository
  import opened Service

  const DefaultLimit := 100
  const MaxLimit := 500

  const InvalidId: GoString := "invalid product id"
  const InvalidJson: GoString := "invalid JSON"
  const ProductNotFoundMessage: GoString := "product not found"

  datatype Page = Page(limit: int, offset: int)

  /**
   * parseLimitOffset: `limit` is taken when it is a positive integer and
   * capped at 500, otherwise it is 100; `offset` is taken when it is a
   * non-negative integer, otherwise it is 0.
   */
  function ParseLimitOffset(q: Query): (page: Page)
    ensures 1 <= page.limit <= MaxLimit && page.offset >= 0
    ensures var n := Atoi(QueryGet(q, "limit"));
              n.Some? && 0 < n.value <= MaxLimit ==> page.limit == n.value
    ensures var n := Atoi(QueryGet(q, "limit"));
              n.Some? && n.value > MaxLimit ==> page.limit == MaxLimit
    ensures var n := Atoi(QueryGet(q, "limit"));
              !(n.Some? && n.value > 0) ==> page.limit == DefaultLimit
    ensures var n := Atoi(QueryGet(q, "offset"));
              n.Some? && n.value >= 0 ==> page.offset == n.value
    ensures var n := Atoi(QueryGet(q, "offset"));
              !(n.Some? && n.value >= 0) ==> page.offset == 0
  {
    var limit :=
      var v := QueryGet(q, "limit");
      if v != [] && Atoi(v).Some? && Atoi(v).value > 0 then
        if Atoi(v).value > MaxLimit then MaxLimit else Atoi(v).value
      else DefaultLimit;
    var offset :=
      var v := QueryGet(q, "offset");
      if v != [] && Atoi(v).Some? && Atoi(v).value >= 0 then Atoi(v).value else 0;
    Page(limit, offset)
  }

  /** Listing with no query, limit=0, limit=10000 and offset=-5. */
  lemma ParseLimitOffsetExamples()
    ensures ParseLimitOffset(map[]) == Page(100, 0)
    ensures ParseLimitOffset(map["limit" := ["0"]]).limit == 100
    ensures ParseLimitOffset(map["limit" := ["10000"]]).limit == 500
    ensures ParseLimitOffset(map["offset" := ["-5"]]).offset == 0
  {
    AtoiItoa(0);
    AtoiItoa(10000);
    assert Decimal(1) == "1";
    assert Decimal(10) == "10";
    assert Decimal(100) == "100";
    assert Decimal(1000) == "1000";
    assert Itoa(10000) == "10000";
    AtoiItoa(-5);
  }

  /** parseID: only a path value that reads as a positive integer is an id. */
  function ParseID(idStr: GoString): (r: Result<int, Response>)
    ensures r.Ok? <==> Atoi(idStr).Some? && Atoi(idStr).value > 0
    ensures r.Ok? ==> r.value == Atoi(idStr).value && r.value > 0
    ensures r.Err? ==> r.error == Apierr.BadRequest(InvalidId)
  {
    if idStr == [] then Err(Apierr.BadRequest(InvalidId))
    else
      var n := Atoi(idStr);
      if n.None? || n.value <= 0 then Err(Apierr.BadRequest(InvalidId))
      else Ok(n.value)
  }

  /** Every positive id, written in decimal as a path segment, is read back. */
  lemma ParseIDItoa(id: int)
    requires 0 < id <= MaxInt
    ensures ParseID(Itoa(id)) == Ok(id)
  {
    AtoiItoa(id);
  }

  /** create's error branch: a validation error is the client's, everything else internal. */
  function CreateFailure(e: ServiceError): (resp: Response)
    ensures resp.status == StatusBadRequest <==> e.ErrValidation?
    ensures e.ErrValidation? ==> resp == Apierr.BadRequest(e.Error())
    ensures !e.ErrValidation? ==> resp == Apierr.Internal()
  {
    if e.ErrValidation? then Apierr.BadRequest(e.Error()) else Apierr.Internal()
  }

  /** getByID's and delete's error branch: ErrNotFound is 404, everything else internal. */
  function LookupFailure(e: ServiceError): (resp: Response)
    ensures resp.status == StatusNotFound <==> e == ErrNotFound
    ensures e == ErrNotFound ==> resp == Apierr.NotFound(ProductNotFoundMessage)
    ensures e != ErrNotFound ==> resp == Apierr.Internal()
  {
    if e == ErrNotFound then Apierr.NotFound(ProductNotFoundMessage) else Apierr.Internal()
  }

  /**
   * update's error branch: validation is 400, ErrNotFound is 404, and any
   * other error is 500 with the fixed message, its cause never shown.
   */
  function UpdateFailure(e: ServiceError): (resp: Response)
    ensures resp.status == StatusBadRequest <==> e.ErrValidation?
    ensures resp.status == StatusNotFound <==> e == ErrNotFound
    ensures resp.status == StatusInternalServerError <==> e.Repo?
    ensures e.ErrValidation? ==> resp == Apierr.BadRequest(e.Error())
    ensures e == ErrNotFound ==> resp == Apierr.NotFound(ProductNotFoundMessage)
    ensures e.Repo? ==> resp == Apierr.Internal()
  {
    if e.ErrValidation? then Apierr.BadRequest(e.Error())
    else if e == ErrNotFound then Apierr.NotFound(ProductNotFoundMessage)
    else Apierr.Internal()
  }

  /**
   * The service hands update the repository's not-found untranslated, and
   * it is not ErrNotFound: updating an absent id answers 500, not 404.
   */
  lemma UpdateOfAbsentIdIsInternal()
    ensures UpdateFailure(Repo(ProductNotFound)) == Apierr.Internal()
    ensures Repo(ProductNotFound).Error() == ErrNotFound.Error()
  {
  }

  class ProductHandler {
    const service: ProductService

    constructor (service: ProductService)
      ensures this.service == service
    {
      this.service := service;
    }

    /**
     * GET /products: the rows with 200, all of them unless the driver cut
     * the listing short; any service error is 500.
     */
    method GetAll(q: Query, queryFault: Option<Fault>, scanFault: Option<ScanFault>, nextStop: Option<nat>)
      returns (resp: Response)
      requires service.repo.Valid()
      ensures queryFault.Some? ==> resp == Apierr.Internal()
      ensures queryFault.None? && ScanFails(scanFault, Delivered(service.repo.table, nextStop)) ==>
                resp == Apierr.Internal()
      ensures queryFault.None? && !ScanFails(scanFault, Delivered(service.repo.table, nextStop)) ==>
                && resp.status == StatusOK && resp.body.ProductsJson?
                && RowsOf(resp.body.products, service.repo.table)
                && |resp.body.products| == Delivered(service.repo.table, nextStop)
      ensures resp.status == StatusOK && Delivered(service.repo.table, nextStop) == |service.repo.table| ==>
                resp.body.ProductsJson? && Lists(resp.body.products, service.repo.table)
    {
      var page := ParseLimitOffset(q);
      var listed := service.GetAllProducts(page.limit, page.offset, queryFault, scanFault, nextStop);
      if listed.Err? {
        return Apierr.Internal();
      }
      return Response(StatusOK, ProductsJson(listed.value));
    }

    /** POST /products: the body's id is reset to 0 and the stored product comes back with 201. */
    method Create(body: Option<Product>, fault: Option<Fault>) returns (resp: Response)
      requires service.repo.Valid()
      modifies service.repo
      ensures service.repo.Valid()
      ensures body.None? ==> resp == Apierr.BadRequest(InvalidJson) && service.repo.table == old(service.repo.table)
      ensures body.Some? && !ValidProduct(body.value) ==>
                && resp == Apierr.BadRequest(ValidateProduct(body.value).value.Error())
                && service.repo.table == old(service.repo.table)
      ensures body.Some? && ValidProduct(body.value) && fault.Some? ==>
                resp == Apierr.Internal() && service.repo.table == old(service.repo.table)
      ensures body.Some? && ValidProduct(body.value) && fault.None? ==>
                && resp.status == StatusCreated && resp.body.ProductJson?
                && resp.body.product == body.value.(id := resp.body.product.id)
                && resp.body.product.id > 0 && resp.body.product.id !in old(service.repo.table)
                && service.repo.table == old(service.repo.table)[resp.body.product.id := resp.body.product]
    {
      if body.None? {
        return Apierr.BadRequest(InvalidJson);
      }
      var p := body.value.(id := 0);
      var created := service.CreateProduct(p, fault);
      if created.Err? {
        return CreateFailure(created.error);
      }
      return Response(StatusCreated, ProductJson(created.value));
    }

    /** GET /products/{id}. */
    method GetByID(idParam: GoString, fault: Option<Fault>) returns (resp: Response)
      requires service.repo.Valid()
      ensures ParseID(idParam).Err? ==> resp == Apierr.BadRequest(InvalidId)
      ensures ParseID(idParam).Ok? && fault.Some? ==> resp == Apierr.Internal()
      ensures ParseID(idParam).Ok? && fault.None? && ParseID(idParam).value in service.repo.table ==>
                resp == Response(StatusOK, ProductJson(service.repo.table[ParseID(idParam).value]))
      ensures ParseID(idParam).Ok? && fault.None? && ParseID(idParam).value !in service.repo.table ==>
                resp == Apierr.NotFound(ProductNotFoundMessage)
    {
      var parsed := ParseID(idParam);
      if parsed.Err? {
        return parsed.error;
      }
      var found := service.GetProductByID(parsed.value, fault);
      if found.Err? {
        return LookupFailure(found.error);
      }
      return Response(StatusOK, ProductJson(found.value));
    }

    /** PUT /products/{id}: the path id replaces the body's id. */
    method Update(idParam: GoString, body: Option<Product>, fault: Option<Fault>) returns (resp: Response)
      requires service.repo.Valid()
      modifies service.repo
      ensures service.repo.Valid()
      ensures ParseID(idParam).Err? ==>
                resp == Apierr.BadRequest(InvalidId) && service.repo.table == old(service.repo.table)
      ensures ParseID(idParam).Ok? && body.None? ==>
                resp == Apierr.BadRequest(InvalidJson) && service.repo.table == old(service.repo.table)
      ensures ParseID(idParam).Ok? && body.Some? && !ValidProduct(body.value) ==>
                && resp == Apierr.BadRequest(ValidateProduct(body.value).value.Error())
                && service.repo.table == old(service.repo.table)
      ensures ParseID(idParam).Ok? && body.Some? && ValidProduct(body.value) && fault.Some? ==>
                resp == Apierr.Internal() && service.repo.table == old(service.repo.table)
      ensures ParseID(idParam).Ok? && body.Some? && ValidProduct(body.value) && fault.None? &&
              ParseID(idParam).value !in old(service.repo.table) ==>
                resp == Apierr.Internal() && service.repo.table == old(service.repo.table)
      ensures ParseID(idParam).Ok? && body.Some? && ValidProduct(body.value) && fault.None? &&
              ParseID(idParam).value in old(service.repo.table) ==>
                var updated := body.value.(id := ParseID(idParam).value);
                && resp == Response(StatusOK, ProductJson(updated))
                && service.repo.table == old(service.repo.table)[updated.id := updated]
    {
      var parsed := ParseID(idParam);
      if parsed.Err? {
        return parsed.error;
      }
      if body.None? {
        return Apierr.BadRequest(InvalidJson);
      }
      var p := body.value.(id := parsed.value);
      var failed := service.UpdateProduct(p, fault);
      if failed.Some? {
        return UpdateFailure(failed.value);
      }
      return Response(StatusOK, ProductJson(p));
    }

    /** DELETE /products/{id}: 204 with no body once the row is gone. */
    method Delete(idParam: GoString, fault: Option<Fault>) returns (resp: Response)
      requires service.repo.Valid()
      modifies service.repo
      ensures service.repo.Valid()
      ensures ParseID(idParam).Err? ==>
                resp == Apierr.BadRequest(InvalidId) && service.repo.table == old(service.repo.table)
      ensures ParseID(idParam).Ok? && fault.Some? ==>
                resp == Apierr.Internal() && service.repo.table == old(service.repo.table)
      ensures ParseID(idParam).Ok? && fault.None? && ParseID(idParam).value !in old(service.repo.table) ==>
                resp == Apierr.NotFound(ProductNotFoundMessage) && service.repo.table == old(service.repo.table)
      ensures ParseID(idParam).Ok? && fault.None? && ParseID(idParam).value in old(service.repo.table) ==>
                && resp == Response(StatusNoContent, NoBody)
                && service.repo.table == old(service.repo.table) - {ParseID(idParam).value}
    {
      var parsed := ParseID(idParam);
      if parsed.Err? {
        return parsed.error;
      }
      var failed := service.DeleteProduct(parsed.value, fault);
      if failed.Some? {
        return LookupFailure(failed.value);
      }
      return Response(StatusNoContent, NoBody);
    }
  }
}
