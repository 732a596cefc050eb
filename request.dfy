/** The request DTO (GenericRequest and its nested SortSpec): mutable beans whose fields
    start at their initialiser defaults and change only through their setters. The
    service reads a request through its getters, here the value `View()`. */
module Request {
  import opened Wrappers
  import opened Values

  /** Java's int. */
  newtype int32 = x: int | -0x8000_0000 <= x < 0x8000_0000

  const INT_MAX: int32 := 0x7fff_ffff

  /** One sort column as the service reads it. */
  datatype Sort = Sort(field: Option<string>, direction: Option<string>)

  /** A request as the service reads it. A null field or list is None; `filters` starts
      as an empty map rather than null. */
  datatype RequestView = RequestView(
    entity: Option<string>,
    fields: Option<seq<string>>,
    filters: Option<Entries>,
    page: int32,
    size: int32,
    sort: Option<string>,
    sorts: Option<seq<Sort>>,
    distinct: bool,
    isExport: bool)

  /** GenericRequest.SortSpec: field and direction are stored as given. */
  class SortSpec {
    var field: Option<string>
    var direction: Option<string>

    constructor()
      ensures field == None && direction == None
    {
      field := None;
      direction := None;
    }

    function View(): Sort
      reads this
    {
      Sort(field, direction)
    }

    method SetField(f: Option<string>)
      modifies this
      ensures View() == Sort(f, old(direction))
    {
      field := f;
    }

    method SetDirection(d: Option<string>)
      modifies this
      ensures View() == Sort(old(field), d)
    {
      direction := d;
    }
  }

  /** The sort specs of a list, read through their getters. */
  function SortViews(ss: seq<SortSpec>): (r: seq<Sort>)
    reads set i | 0 <= i < |ss| :: ss[i]
    ensures |r| == |ss| && forall i :: 0 <= i < |ss| ==> r[i] == ss[i].View()
  {
    if |ss| == 0 then [] else [ss[0].View()] + SortViews(ss[1..])
  }

  class GenericRequest {
    var entity: Option<string>
    var fields: Option<seq<string>>
    var filters: Option<Entries>
    var page: int32
    var size: int32
    var sort: Option<string>
    var sorts: Option<seq<SortSpec>>
    var distinct: bool
    var isExport: bool

    /** The field initialisers: an empty filter map, page 0 of size 20, neither distinct
        nor export, everything else null. */
    constructor()
      ensures entity == None && fields == None && filters == Some([])
      ensures page == 0 && size == 20 && sort == None && sorts == None
      ensures !distinct && !isExport
    {
      entity := None;
      fields := None;
      filters := Some([]);
      page := 0;
      size := 20;
      sort := None;
      sorts := None;
      distinct := false;
      isExport := false;
    }

    /** The sort specs the list holds. */
    function SortObjects(): set<object>
      reads this
    {
      if sorts.None? then {} else set i | 0 <= i < |sorts.value| :: sorts.value[i] as object
    }

    /** What the getters return, with the sort specs read through their own getters. */
    function View(): RequestView
      reads this, SortObjects()
    {
      RequestView(entity, fields, filters, page, size, sort,
        if sorts.None? then None else Some(SortViews(sorts.value)),
        distinct, isExport)
    }

    method SetEntity(e: Option<string>)
      modifies this
      ensures entity == e
      ensures fields == old(fields) && filters == old(filters) && page == old(page) && size == old(size)
      ensures sort == old(sort) && sorts == old(sorts) && distinct == old(distinct) && isExport == old(isExport)
    {
      entity := e;
    }

    method SetFields(f: Option<seq<string>>)
      modifies this
      ensures fields == f
      ensures entity == old(entity) && filters == old(filters) && page == old(page) && size == old(size)
      ensures sort == old(sort) && sorts == old(sorts) && distinct == old(distinct) && isExport == old(isExport)
    {
      fields := f;
    }

    method SetFilters(f: Option<Entries>)
      modifies this
      ensures filters == f
      ensures entity == old(entity) && fields == old(fields) && page == old(page) && size == old(size)
      ensures sort == old(sort) && sorts == old(sorts) && distinct == old(distinct) && isExport == old(isExport)
    {
      filters := f;
    }

    method SetPage(p: int32)
      modifies this
      ensures page == p
      ensures entity == old(entity) && fields == old(fields) && filters == old(filters) && size == old(size)
      ensures sort == old(sort) && sorts == old(sorts) && distinct == old(distinct) && isExport == old(isExport)
    {
      page := p;
    }

    method SetSize(s: int32)
      modifies this
      ensures size == s
      ensures entity == old(entity) && fields == old(fields) && filters == old(filters) && page == old(page)
      ensures sort == old(sort) && sorts == old(sorts) && distinct == old(distinct) && isExport == old(isExport)
    {
      size := s;
    }

    method SetSort(s: Option<string>)
      modifies this
      ensures sort == s
      ensures entity == old(entity) && fields == old(fields) && filters == old(filters) && page == old(page)
      ensures size == old(size) && sorts == old(sorts) && distinct == old(distinct) && isExport == old(isExport)
    {
      sort := s;
    }

    method SetSorts(s: Option<seq<SortSpec>>)
      modifies this
      ensures sorts == s
      ensures entity == old(entity) && fields == old(fields) && filters == old(filters) && page == old(page)
      ensures size == old(size) && sort == old(sort) && distinct == old(distinct) && isExport == old(isExport)
    {
      sorts := s;
    }

    method SetDistinct(d: bool)
      modifies this
      ensures distinct == d
      ensures entity == old(entity) && fields == old(fields) && filters == old(filters) && page == old(page)
      ensures size == old(size) && sort == old(sort) && sorts == old(sorts) && isExport == old(isExport)
    {
      distinct := d;
    }

    method SetExport(x: bool)
      modifies this
      ensures isExport == x
      ensures entity == old(entity) && fields == old(fields) && filters == old(filters) && page == old(page)
      ensures size == old(size) && sort == old(sort) && sorts == old(sorts) && distinct == old(distinct)
    {
      isExport := x;
    }
  }
}
