/** The backoffice instructor directory: the search-and-status filter, the
    status colours, the row actions, the expanded row, and the "top
    performing" panel, which sorts the shared instructor array in place. */
module BackofficeInstructors {
  import opened Wrappers
  import opened Seqs
  import opened Text

  datatype Instructor = Instructor(
    id: string,
    name: string,
    email: string,
    status: string,
    coursesCount: int,
    studentsCount: int,
    rating: real,
    specialization: string,
    joinedDate: string)

  predicate Matches(searchTerm: string, statusFilter: string, inst: Instructor)
  {
    (|| ContainsIgnoringCase(inst.name, searchTerm)
     || ContainsIgnoringCase(inst.email, searchTerm)
     || ContainsIgnoringCase(inst.specialization, searchTerm))
    && (statusFilter == "all" || inst.status == statusFilter)
  }

  /** `filteredInstructors`, in the array's current order. */
  function Filtered(instructors: seq<Instructor>, searchTerm: string, statusFilter: string): (r: seq<Instructor>)
    ensures IsSubsequence(r, instructors)
    ensures forall x :: x in r <==> x in instructors && Matches(searchTerm, statusFilter, x)
  {
    FilterMembers(instructors, (x: Instructor) => Matches(searchTerm, statusFilter, x));
    Filter(instructors, (x: Instructor) => Matches(searchTerm, statusFilter, x))
  }

  /** An empty search with the "all" filter lists everyone. */
  lemma NoFilterListsEveryone(instructors: seq<Instructor>)
    ensures Filtered(instructors, "", "all") == instructors
  {
    forall i | 0 <= i < |instructors| ensures Matches("", "all", instructors[i]) {
      ContainsEmpty(Lower(instructors[i].name));
    }
    FilterAll(instructors, (x: Instructor) => Matches("", "all", x));
  }

  /** `getStatusColor`. */
  function StatusColor(status: string): (classes: string)
  {
    match status
    case "active" => "bg-emerald-500/10 text-emerald-600 border-emerald-200"
    case "pending" => "bg-amber-500/10 text-amber-600 border-amber-200"
    case "suspended" => "bg-destructive/10 text-destructive border-destructive/20"
    case _ => "bg-muted text-muted-foreground border-muted"
  }

  /** The three known statuses have colours of their own; any other status
      falls back to the muted one. */
  lemma StatusColorsDistinct(status: string)
    ensures status in {"active", "pending", "suspended"} <==> StatusColor(status) != "bg-muted text-muted-foreground border-muted"
    ensures StatusColor("active") != StatusColor("pending") && StatusColor("pending") != StatusColor("suspended")
      && StatusColor("active") != StatusColor("suspended")
  {
  }

  /** "Approve Account" is offered to pending instructors only. */
  predicate OffersApprove(status: string)
  {
    status == "pending"
  }

  /** "Suspend Account" is offered unless already suspended. */
  predicate OffersSuspend(status: string)
  {
    status != "suspended"
  }

  /** A pending instructor is offered both actions, an active one only
      Suspend, a suspended one neither; no status offers Approve alone. */
  lemma ActionsByStatus(status: string)
    ensures OffersApprove("pending") && OffersSuspend("pending")
    ensures !OffersApprove("active") && OffersSuspend("active")
    ensures !OffersApprove("suspended") && !OffersSuspend("suspended")
    ensures OffersApprove(status) ==> OffersSuspend(status)
  {
  }

  datatype Toast = SuccessToast(message: string) | ErrorToast(message: string)

  /** `handleApprove`: only a toast; no instructor changes. */
  method HandleApprove(id: string) returns (t: Toast)
    ensures t == SuccessToast("Instructor approved successfully")
  {
    t := SuccessToast("Instructor approved successfully");
  }

  /** `handleSuspend`: only a toast; no instructor changes. */
  method HandleSuspend(id: string) returns (t: Toast)
    ensures t == ErrorToast("Instructor account suspended")
  {
    t := ErrorToast("Instructor account suspended");
  }

  /** The expanded row after clicking the row of `id`. */
  function Toggled(expanded: Option<string>, id: string): (r: Option<string>)
    ensures expanded == Some(id) ==> r.None?
    ensures expanded != Some(id) ==> r == Some(id)
  {
    if expanded == Some(id) then None else Some(id)
  }

  /** Clicking a row twice collapses it, whatever was open before. */
  lemma ToggleTwice(expanded: Option<string>, id: string)
    ensures Toggled(Toggled(expanded, id), id) == if expanded == Some(id) then Some(id) else None
  {
  }

  predicate SortedByRatingDesc(s: seq<Instructor>)
  {
    forall k, l :: 0 <= k < l < |s| ==> s[k].rating >= s[l].rating
  }

  /** `INSTRUCTORS.sort((a, b) => b.rating - a.rating)`: the array in place,
      highest rating first, by insertion. */
  method SortByRating(a: array<Instructor>)
    modifies a
    ensures SortedByRatingDesc(a[..])
    ensures multiset(a[..]) == multiset(old(a[..]))
  {
    if a.Length < 2 {
      return;
    }
    var i := 1;
    while i < a.Length
      invariant 1 <= i <= a.Length
      invariant SortedByRatingDesc(a[..i])
      invariant multiset(a[..]) == multiset(old(a[..]))
    {
      Insert(a, i);
      i := i + 1;
    }
    assert a[..a.Length] == a[..];
  }

  /** Moves `a[i]` left past the lower-rated entries before it. */
  method Insert(a: array<Instructor>, i: nat)
    requires 0 < i < a.Length && SortedByRatingDesc(a[..i])
    modifies a
    ensures SortedByRatingDesc(a[..i + 1])
    ensures multiset(a[..]) == multiset(old(a[..]))
  {
    var j := i;
    while j > 0 && a[j - 1].rating < a[j].rating
      invariant 0 <= j <= i
      invariant forall k, l :: 0 <= k < l <= i && k != j && l != j ==> a[k].rating >= a[l].rating
      invariant forall l :: j < l <= i ==> a[j].rating > a[l].rating
      invariant multiset(a[..]) == multiset(old(a[..]))
    {
      Swap(a, j);
      j := j - 1;
    }
  }

  /** Exchanges `a[j - 1]` and `a[j]`. */
  method Swap(a: array<Instructor>, j: nat)
    requires 0 < j < a.Length
    modifies a
    ensures a[..] == old(a[..])[j - 1 := old(a[j])][j := old(a[j - 1])]
    ensures multiset(a[..]) == multiset(old(a[..]))
  {
    a[j - 1], a[j] := a[j], a[j - 1];
  }

  /** The panel: sorts the shared array, then shows its first three. */
  method TopPerformers(a: array<Instructor>) returns (top: seq<Instructor>)
    modifies a
    ensures SortedByRatingDesc(a[..]) && multiset(a[..]) == multiset(old(a[..]))
    ensures top == a[..if a.Length < 3 then a.Length else 3]
    ensures forall x :: x in old(a[..]) && |top| > 0 ==> top[0].rating >= x.rating
  {
    SortByRating(a);
    top := a[..if a.Length < 3 then a.Length else 3];
    forall x | x in old(a[..]) && |top| > 0 ensures top[0].rating >= x.rating {
      assert x in multiset(a[..]);
      var k :| 0 <= k < a.Length && a[k] == x;
      if k > 0 {
        assert a[..][0].rating >= a[..][k].rating;
      }
    }
  }

  const Instructors: seq<Instructor> := [
    Instructor("inst-1", "Dr. Sarah Wilson", "sarah.wilson@learnsphere.edu", "active", 12, 1543, 4.9, "Computer Science", "2023-01-15"),
    Instructor("inst-2", "Prof. Michael Chen", "michael.chen@learnsphere.edu", "active", 8, 892, 4.7, "Data Science", "2023-03-10"),
    Instructor("inst-3", "Emily Davis", "emily.davis@learnsphere.edu", "pending", 1, 0, 0.0, "UX Design", "2024-02-01"),
    Instructor("inst-4", "James Rodriguez", "j.rodriguez@learnsphere.edu", "suspended", 3, 120, 3.2, "Digital Marketing", "2023-11-05"),
    Instructor("inst-5", "Anita Patel", "anita.patel@learnsphere.edu", "active", 5, 650, 4.8, "Business Management", "2023-06-20")
  ]

  /** The page state beside the shared array: the search box, the status
      filter and the expanded row. */
  class DirectoryView {
    var searchTerm: string
    var statusFilter: string
    var expanded: Option<string>

    constructor ()
      ensures searchTerm == "" && statusFilter == "all" && expanded.None?
    {
      searchTerm := "";
      statusFilter := "all";
      expanded := None;
    }

    /** A click on the row of `id`; the actions menu stops the click. */
    method ClickRow(id: string)
      modifies this
      ensures expanded == Toggled(old(expanded), id)
      ensures searchTerm == old(searchTerm) && statusFilter == old(statusFilter)
    {
      expanded := if expanded == Some(id) then None else Some(id);
    }
  }
}
