/**
  The HR dashboard's filter toolbar: a record of filter values updated key
  by key or reset, each change handed to the parent at once, and the
  "active filters" flag that shows the reset button and the summary.
*/
module FilterToolbar {
  import opened Common

  /** A filter record; any key may be added (the custom range adds `startDate` and `endDate`). */
  type Filters = map<string, string>

  const Defaults: Filters := map["dateRange" := "today", "department" := "all", "status" := "all", "searchTerm" := ""]

  function Get(f: Filters, key: string): (r: Option<string>)
    ensures r.Some? <==> key in f
    ensures r.Some? ==> r.value == f[key]
  {
    if key in f then Some(f[key]) else None
  }

  /**
    `hasActiveFilters`: one of the four main keys differs from its default
    (a missing key, being undefined, differs too).
  */
  predicate HasActive(f: Filters)
  {
    Get(f, "dateRange") != Some("today") || Get(f, "department") != Some("all")
    || Get(f, "status") != Some("all") || Get(f, "searchTerm") != Some("")
  }

  /** The defaults are not active, and a record is inactive exactly when its four main keys hold their defaults. */
  lemma ActiveIffAwayFromDefaults(f: Filters)
    ensures !HasActive(Defaults)
    ensures !HasActive(f) <==> forall k :: k in Defaults ==> k in f && f[k] == Defaults[k]
  {
    if !HasActive(f) {
      forall k | k in Defaults
        ensures k in f && f[k] == Defaults[k]
      {
        assert k in {"dateRange", "department", "status", "searchTerm"};
      }
    } else {
      assert "dateRange" in Defaults && "department" in Defaults && "status" in Defaults && "searchTerm" in Defaults;
    }
  }

  /** The custom start and end dates never make the filters active, nor inactive. */
  lemma DatesNeverActivate(f: Filters, value: string)
    ensures HasActive(f["startDate" := value]) == HasActive(f)
    ensures HasActive(f["endDate" := value]) == HasActive(f)
  {
    assert Get(f["startDate" := value], "dateRange") == Get(f, "dateRange");
    assert Get(f["startDate" := value], "department") == Get(f, "department");
    assert Get(f["startDate" := value], "status") == Get(f, "status");
    assert Get(f["startDate" := value], "searchTerm") == Get(f, "searchTerm");
    assert Get(f["endDate" := value], "dateRange") == Get(f, "dateRange");
    assert Get(f["endDate" := value], "department") == Get(f, "department");
    assert Get(f["endDate" := value], "status") == Get(f, "status");
    assert Get(f["endDate" := value], "searchTerm") == Get(f, "searchTerm");
  }

  /** Setting a main key away from its default makes the filters active. */
  lemma ChangeAwayFromDefaultActivates(f: Filters, key: string, value: string)
    requires key in Defaults && value != Defaults[key]
    ensures HasActive(f[key := value])
  {
    assert key in {"dateRange", "department", "status", "searchTerm"};
  }

  /** The toolbar's state, with the records handed to `onFiltersChange` in order. */
  class Toolbar {
    var filters: Filters
    var notified: seq<Filters>

    constructor ()
      ensures filters == Defaults && notified == []
    {
      filters := Defaults;
      notified := [];
    }

    /** The reset button and the active-filters summary are shown only when the filters are active. */
    function ResetShown(): (shown: bool)
      reads this
      ensures shown <==> HasActive(filters)
    {
      HasActive(filters)
    }

    /** `handleFilterChange(key, value)`: only that key changes, and the new record is handed on at once. */
    method Change(key: string, value: string)
      modifies this
      ensures filters == old(filters)[key := value]
      ensures notified == old(notified) + [filters]
    {
      var next := filters[key := value];
      filters := next;
      notified := notified + [next];
    }

    /** `handleReset`: the defaults, handed on as well. */
    method Reset()
      modifies this
      ensures filters == Defaults && !HasActive(filters)
      ensures notified == old(notified) + [Defaults]
    {
      filters := Defaults;
      notified := notified + [Defaults];
      ActiveIffAwayFromDefaults(Defaults);
    }
  }

  /** Searching and then resetting hands on the searched record, then the defaults, and ends inactive. */
  method SearchThenReset(term: string) returns (sent: seq<Filters>, active: bool)
    ensures |sent| == 2 && sent[0] == Defaults["searchTerm" := term] && sent[1] == Defaults
    ensures !active
  {
    var bar := new Toolbar();
    bar.Change("searchTerm", term);
    bar.Reset();
    sent, active := bar.notified, bar.ResetShown();
  }
}
