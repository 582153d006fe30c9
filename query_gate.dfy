/** The configuration vocabulary of the query-gate package as the models use
    it: filter operators, filter tables, API version blocks and custom action
    descriptors. These are data; the package's engine that interprets them is
    not part of this model. */
module QueryGate {

  /** The comparison operators a filter may admit. */
  datatype Operator = Eq | Neq | Like | In | NotIn | Gt | Gte | Lt | Lte | Between

  /** A calendar date, the key of an API version block ("2024-06-01"). */
  datatype Date = Date(year: int, month: int, day: int)

  /** Strict chronological order of dates. */
  predicate DateBefore(a: Date, b: Date) {
    a.year < b.year
    || (a.year == b.year && a.month < b.month)
    || (a.year == b.year && a.month == b.month && a.day < b.day)
  }

  /** The filter, operator, projection and sort tables of one model (or of one
      version block of it).
      - filters: filterable field -> its validation rules, kept as rule strings
      - allowedFilters: filterable field -> the operators it admits
      - select: the fields a listing may project
      - sorts: the fields a listing may sort on
      - rawFilters: the fields whose predicate a custom closure builds */
  datatype FilterSpec = FilterSpec(
    filters: map<string, seq<string>>,
    allowedFilters: map<string, seq<Operator>>,
    select: seq<string>,
    sorts: seq<string>,
    rawFilters: set<string>)

  /** A `->version(date, ...)` block: its effective date and its full tables. */
  datatype VersionSpec = VersionSpec(effective: Date, spec: FilterSpec)

  /** Every field with an operator list is also a declared filter, and every
      raw filter overrides a field that admits at least one operator. */
  predicate WellFormed(s: FilterSpec) {
    && s.allowedFilters.Keys <= s.filters.Keys && s.rawFilters <= s.allowedFilters.Keys
    && (forall f :: f in s.rawFilters ==> |s.allowedFilters[f]| > 0)
  }

  /** Version blocks are listed in strictly increasing order of effective date. */
  predicate ChronologicallyOrdered(vs: seq<VersionSpec>) {
    forall i, j :: 0 <= i < j < |vs| ==> DateBefore(vs[i].effective, vs[j].effective)
  }

  /** Every field an earlier table admits is admitted by the later one, with at
      least the same operators, and every projectable or sortable field stays
      so: a client written against the earlier table keeps working. */
  predicate Extends(earlier: FilterSpec, later: FilterSpec) {
    OperatorsExtend(earlier.allowedFilters, later.allowedFilters)
    && FieldsExtend(earlier.select, later.select)
    && FieldsExtend(earlier.sorts, later.sorts)
  }

  predicate OperatorsExtend(earlier: map<string, seq<Operator>>, later: map<string, seq<Operator>>) {
    forall f :: f in earlier ==> f in later && forall k :: 0 <= k < |earlier[f]| ==> earlier[f][k] in later[f]
  }

  predicate FieldsExtend(earlier: seq<string>, later: seq<string>) {
    forall k :: 0 <= k < |earlier| ==> earlier[k] in later
  }

  /** The value handed to a filter: one string, or a list when the request
      sends an array. */
  datatype FilterValue = Scalar(text: string) | Many(items: seq<string>)

  /** What a custom action declares about itself: `action()`, `method()` and
      `status()`. */
  datatype ActionDescriptor = ActionDescriptor(action: string, httpMethod: string, status: int)
}
