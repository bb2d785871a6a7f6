/** The portfolio filter buttons and the items they show or hide. */
module PortfolioFilter {

  const ShowAll: string := "all"

  /** An item stays visible under a filter value when the value is `all` or
      one of the item's classes. */
  predicate Passes(filter: string, classes: set<string>) {
    filter == ShowAll || filter in classes
  }

  /** The click handler of button `clicked`: every button loses `active`, the
      clicked one gains it, then each item is shown or hidden. */
  method ClickFilter(filters: seq<string>, items: seq<set<string>>, active: seq<bool>,
                     shown: seq<bool>, clicked: nat) returns (active': seq<bool>, shown': seq<bool>)
    requires clicked < |filters|
    requires |active| == |filters| && |shown| == |items|
    ensures |active'| == |filters|
    ensures forall j :: 0 <= j < |filters| ==> (active'[j] <==> j == clicked)
    ensures |shown'| == |items|
    ensures forall i :: 0 <= i < |items| ==> (shown'[i] <==> Passes(filters[clicked], items[i]))
  {
    active' := active;
    var j := 0;
    while j < |active'|
      invariant 0 <= j <= |active'| == |filters|
      invariant forall k :: 0 <= k < j ==> !active'[k]
    {
      active' := active'[j := false];
      j := j + 1;
    }
    active' := active'[clicked := true];

    var filter := filters[clicked];
    shown' := shown;
    var i := 0;
    while i < |shown'|
      invariant 0 <= i <= |shown'| == |items|
      invariant forall k :: 0 <= k < i ==> (shown'[k] <==> Passes(filter, items[k]))
    {
      shown' := shown'[i := Passes(filter, items[i])];
      i := i + 1;
    }
  }
}
