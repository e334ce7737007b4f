/** internal/util/util.go: a set-membership helper and the builder that
    collects column names, bound values and `$n` placeholders for a
    parameterised SQL statement. */
module Util {
  import opened Strings

  /** The empty struct used as a map value to make a set. */
  datatype Void = Void

  /** `KeyExists`: Go's comma-ok lookup `_, exists := m[k]`. */
  function KeyExists(k: string, m: map<string, Void>): (exists_: bool)
    ensures exists_ <==> k in m.Keys
  {
    k in m
  }

  /** The `n`-th placeholder, `$n`. */
  function PlaceHolder(n: int): string
  {
    "$" + FormatInt(n)
  }

  /** `QueryParams`. Go's `[]interface{}` of bound values is the type
      parameter `V`: the builder never looks inside a value. */
  class QueryParams<V> {
    var columnNumber: int
    var columns: seq<string>
    var placeHolders: seq<string>
    var params: seq<V>

    /** The shape every builder made by `NewQueryParams` and then only
        extended by `AddParam` keeps: three aligned lists, one entry per
        added column, the i-th placeholder being `$(i+1)`, and
        `columnNumber` the number the next placeholder will carry. */
    ghost predicate Valid()
      reads this
    {
      |columns| == |params| == |placeHolders| == columnNumber - 1 &&
      forall i :: 0 <= i < |placeHolders| ==> placeHolders[i] == PlaceHolder(i + 1)
    }

    /** `NewQueryParams`. */
    constructor ()
      ensures columnNumber == 1
      ensures columns == [] && params == [] && placeHolders == []
      ensures Valid()
    {
      columnNumber := 1;
      columns := [];
      params := [];
      placeHolders := [];
    }

    /** `AddParam`: appends one entry to each list and moves to the next
        placeholder number. */
    method AddParam(columnName: string, columnValue: V)
      modifies this
      ensures columns == old(columns) + [columnName]
      ensures params == old(params) + [columnValue]
      ensures placeHolders == old(placeHolders) + [PlaceHolder(old(columnNumber))]
      ensures columnNumber == old(columnNumber) + 1
      ensures old(Valid()) ==> Valid()
    {
      columns := columns + [columnName];
      params := params + [columnValue];
      placeHolders := placeHolders + [PlaceHolder(columnNumber)];
      columnNumber := columnNumber + 1;
    }
  }

  /** Every placeholder of a well-formed builder is different, so no two
      bound values share a `$n`. */
  lemma PlaceHoldersDistinct<V>(q: QueryParams<V>)
    requires q.Valid()
    ensures forall i, j :: 0 <= i < j < |q.placeHolders| ==> q.placeHolders[i] != q.placeHolders[j]
  {
    forall i, j | 0 <= i < j < |q.placeHolders|
      ensures q.placeHolders[i] != q.placeHolders[j]
    {
      PlaceHolderInjective(i + 1, j + 1);
    }
  }

  lemma PlaceHolderInjective(a: nat, b: nat)
    ensures PlaceHolder(a) == PlaceHolder(b) ==> a == b
  {
    assert PlaceHolder(a)[1..] == FormatNat(a);
    assert PlaceHolder(b)[1..] == FormatNat(b);
    if FormatNat(a) == FormatNat(b) {
      FormatNatInjective(a, b);
    }
  }

  /** The placeholder of column `n` reads back as `n`. */
  lemma PlaceHolderNumber(n: nat)
    ensures PlaceHolder(n)[0] == '$'
    ensures |PlaceHolder(n)| >= 2 && ParseNat(PlaceHolder(n)[1..]) == n
  {
    assert PlaceHolder(n)[1..] == FormatNat(n);
    ParseFormat(n);
  }
}
