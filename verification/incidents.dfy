/**
 The incident list view: a free-text search plus two select boxes narrow the
 list of incidents to the ones shown. The derived list is recomputed from the
 three filter controls on every change, so it is modelled as a pure function of
 the incident list and the filter state.
 */
module Incidents {
  import opened Sequences
  import opened Strings

  datatype Priority = Critical | High | Medium | Low

  datatype Status = New | InProgress | Resolved | Closed

  /** The value the priority select box uses for a priority. */
  function PriorityValue(p: Priority): string {
    match p
    case Critical => "critical"
    case High => "high"
    case Medium => "medium"
    case Low => "low"
  }

  /** The value the status select box uses for a status. */
  function StatusValue(s: Status): string {
    match s
    case New => "new"
    case InProgress => "in-progress"
    case Resolved => "resolved"
    case Closed => "closed"
  }

  datatype Incident = Incident(
    id: string,
    number: string,
    title: string,
    description: string,
    priority: Priority,
    status: Status,
    assignee: string,
    createdAt: string,
    updatedAt: string,
    category: string)

  /**
   The three filter controls. The select boxes hold plain strings: "all" or the
   value of one status or priority.
   */
  datatype FilterState = FilterState(searchTerm: string, statusFilter: string, priorityFilter: string)

  /** The select value that disables a categorical filter. */
  const All: string := "all"

  /** The controls as the view first shows them: empty search, both selects on "all". */
  const InitialFilters: FilterState := FilterState("", All, All)

  /** The lower-cased search term occurs in the lower-cased title, description or number. */
  predicate MatchesSearch(incident: Incident, searchTerm: string) {
    var term := ToLower(searchTerm);
    || Includes(ToLower(incident.title), term)
    || Includes(ToLower(incident.description), term)
    || Includes(ToLower(incident.number), term)
  }

  predicate MatchesStatus(incident: Incident, statusFilter: string) {
    statusFilter == All || StatusValue(incident.status) == statusFilter
  }

  predicate MatchesPriority(incident: Incident, priorityFilter: string) {
    priorityFilter == All || PriorityValue(incident.priority) == priorityFilter
  }

  /** An incident is shown when it passes the search and both selects. */
  predicate Matches(incident: Incident, filters: FilterState) {
    && MatchesSearch(incident, filters.searchTerm)
    && MatchesStatus(incident, filters.statusFilter)
    && MatchesPriority(incident, filters.priorityFilter)
  }

  /**
   The incidents shown: the matching ones, each as often as in the source list
   and in the source order. Nothing that matches is dropped.
   */
  function FilterIncidents(incidents: seq<Incident>, filters: FilterState): (visible: seq<Incident>)
    ensures IsSubsequence(visible, incidents)
    ensures forall x :: x in visible <==> x in incidents && Matches(x, filters)
    ensures forall x :: multiset(visible)[x] == if Matches(x, filters) then multiset(incidents)[x] else 0
    decreases |incidents|
  {
    if |incidents| == 0 then []
    else
      assert incidents == [incidents[0]] + incidents[1..];
      var rest := FilterIncidents(incidents[1..], filters);
      if Matches(incidents[0], filters) then [incidents[0]] + rest else rest
  }

  /** "Showing n of m incidents": the shown count never exceeds the total. */
  lemma VisibleCountBounded(incidents: seq<Incident>, filters: FilterState)
    ensures |FilterIncidents(incidents, filters)| <= |incidents|
  {
    SubsequenceMultiset(FilterIncidents(incidents, filters), incidents);
  }

  /**
   Every shown incident has the selected status and priority, unless the select
   is on "all".
   */
  lemma VisibleRespectSelects(incidents: seq<Incident>, filters: FilterState)
    ensures forall x | x in FilterIncidents(incidents, filters) ::
      && (filters.statusFilter != All ==> StatusValue(x.status) == filters.statusFilter)
      && (filters.priorityFilter != All ==> PriorityValue(x.priority) == filters.priorityFilter)
      && MatchesSearch(x, filters.searchTerm)
  {
  }

  /** With an empty search and both selects on "all", every incident is shown, in order. */
  lemma {:induction false} InitialFiltersShowAll(incidents: seq<Incident>)
    ensures FilterIncidents(incidents, InitialFilters) == incidents
    decreases |incidents|
  {
    if |incidents| > 0 {
      IncludesEmpty(ToLower(incidents[0].title));
      assert ToLower("") == "";
      InitialFiltersShowAll(incidents[1..]);
      assert incidents == [incidents[0]] + incidents[1..];
    }
  }

  /** Two search terms with the same lower-case form show the same incidents. */
  lemma {:induction false} SearchIgnoresCase(incidents: seq<Incident>, filters: FilterState, term: string)
    requires ToLower(term) == ToLower(filters.searchTerm)
    ensures FilterIncidents(incidents, filters.(searchTerm := term)) == FilterIncidents(incidents, filters)
    decreases |incidents|
  {
    if |incidents| > 0 {
      SearchIgnoresCase(incidents[1..], filters, term);
    }
  }

  /** Lower-casing or upper-casing the search term does not change what is shown. */
  lemma SearchCaseVariants(incidents: seq<Incident>, filters: FilterState)
    ensures FilterIncidents(incidents, filters.(searchTerm := ToLower(filters.searchTerm)))
         == FilterIncidents(incidents, filters)
    ensures FilterIncidents(incidents, filters.(searchTerm := ToUpper(filters.searchTerm)))
         == FilterIncidents(incidents, filters)
  {
    ToLowerIgnoresCase(filters.searchTerm);
    SearchIgnoresCase(incidents, filters, ToLower(filters.searchTerm));
    SearchIgnoresCase(incidents, filters, ToUpper(filters.searchTerm));
  }

  /**
   A search term that contains the current one (ignoring case) shows a
   subsequence of what the current one shows.
   */
  lemma {:induction false} SearchNarrowing(incidents: seq<Incident>, filters: FilterState, term: string)
    requires Includes(ToLower(term), ToLower(filters.searchTerm))
    ensures IsSubsequence(FilterIncidents(incidents, filters.(searchTerm := term)),
                          FilterIncidents(incidents, filters))
    decreases |incidents|
  {
    if |incidents| > 0 {
      var x := incidents[0];
      var narrow := filters.(searchTerm := term);
      SearchNarrowing(incidents[1..], filters, term);
      if Matches(x, narrow) {
        var t := ToLower(term);
        var q := ToLower(filters.searchTerm);
        if Includes(ToLower(x.title), t) {
          IncludesTransitive(ToLower(x.title), t, q);
        } else if Includes(ToLower(x.description), t) {
          IncludesTransitive(ToLower(x.description), t, q);
        } else {
          IncludesTransitive(ToLower(x.number), t, q);
        }
        assert Matches(x, filters);
      } else {
        var rest := FilterIncidents(incidents[1..], filters);
        if Matches(x, filters) {
          assert ([x] + rest)[1..] == rest;
          SubsequenceReflexive(rest);
          assert IsSubsequence(rest, [x] + rest);
          SubsequenceTransitive(FilterIncidents(incidents[1..], narrow), rest, [x] + rest);
        }
      }
    }
  }

  /** Typing more characters after the search term can only shrink the shown list. */
  lemma ExtendingSearchNarrows(incidents: seq<Incident>, filters: FilterState, more: string)
    ensures IsSubsequence(FilterIncidents(incidents, filters.(searchTerm := filters.searchTerm + more)),
                          FilterIncidents(incidents, filters))
  {
    ToLowerAppend(filters.searchTerm, more);
    IncludesPrefix(ToLower(filters.searchTerm), ToLower(more));
    SearchNarrowing(incidents, filters, filters.searchTerm + more);
  }

  /** Selecting "new" keeps a new incident and hides a resolved one. */
  lemma StatusFilterScenario(a: Incident, b: Incident)
    requires a.status == New && b.status == Resolved
    ensures FilterIncidents([a, b], FilterState("", "new", All)) == [a]
  {
    IncludesEmpty(ToLower(a.title));
    assert ToLower("") == "";
    assert [a, b][1..] == [b];
  }

  /** The incidents the list view shows; long texts are written in pieces split after a space. */
  const EmailIncident: Incident :=
    Incident("1", "INC0012345", "Email Server Connectivity Issues",
             "Users unable to connect to email server. " + "Multiple reports of timeout errors " +
             "when trying to access mailboxes.",
             High, New, "John Smith", "2 hours ago", "1 hour ago", "Email Systems")

  const VpnIncident: Incident :=
    Incident("2", "INC0012346", "VPN Connection Failures",
             "Remote users experiencing intermittent " + "VPN disconnections. Issue appears " +
             "to be affecting multiple locations.",
             Medium, InProgress, "Sarah Johnson", "4 hours ago", "30 minutes ago", "Network")

  const DatabaseIncident: Incident :=
    Incident("3", "INC0012347", "Database Performance Degradation",
             "Application database showing slow " + "response times. Query execution " +
             "taking significantly longer than normal.",
             Critical, New, "Mike Chen", "1 hour ago", "1 hour ago", "Database")

  const PrinterIncident: Incident :=
    Incident("4", "INC0012348", "Printer Queue Stuck",
             "Print jobs accumulating in queue but " + "not processing. Affecting multiple " +
             "printers on floor 3.",
             Low, InProgress, "Lisa Wong", "6 hours ago", "2 hours ago", "Hardware")

  const MockIncidents: seq<Incident> := [EmailIncident, VpnIncident, DatabaseIncident, PrinterIncident]

  /** The search "vpn" with both selects on "all". */
  const VpnSearch: FilterState := FilterState("vpn", All, All)

  /** Every field the search looks at lacks "vpn", ignoring case. */
  predicate LacksVpn(incident: Incident) {
    && !Includes(ToLower(incident.title), "vpn")
    && !Includes(ToLower(incident.description), "vpn")
    && !Includes(ToLower(incident.number), "vpn")
  }

  lemma LacksVpnNotMatched(incident: Incident)
    requires LacksVpn(incident)
    ensures !Matches(incident, VpnSearch)
  {
    assert ToLower(VpnSearch.searchTerm) == "vpn";
  }

  /** A text that lacks one letter of "vpn", the `k`-th, in both cases does not contain "vpn", ignoring case. */
  lemma LacksLetterOfVpn(t: string, k: int)
    requires 0 <= k < 3
    requires "vpn"[k] !in t && UpperChar("vpn"[k]) !in t
    ensures !Includes(ToLower(t), "vpn")
  {
    MissingLetterExcludes(t, "vpn", k);
  }

  lemma EmailTitleLacksVpn()
    ensures !Includes(ToLower("Email Server Connectivity Issues"), "vpn")
  {
    assert UpperChar('v') == 'V' && UpperChar('p') == 'P';
    LacksLetterOfVpn("Email Server Connectivity Issues", 1);
  }

  lemma EmailPiece1LacksVpn()
    ensures !Includes(ToLower("Users unable to connect to email server. "), "vpn")
  {
    assert UpperChar('v') == 'V' && UpperChar('p') == 'P';
    LacksLetterOfVpn("Users unable to connect to email server. ", 1);
  }

  lemma EmailPiece2LacksVpn()
    ensures !Includes(ToLower("Multiple reports of timeout errors "), "vpn")
  {
    assert UpperChar('v') == 'V' && UpperChar('p') == 'P';
    LacksLetterOfVpn("Multiple reports of timeout errors ", 0);
  }

  lemma EmailPiece3LacksVpn()
    ensures !Includes(ToLower("when trying to access mailboxes."), "vpn")
  {
    assert UpperChar('v') == 'V' && UpperChar('p') == 'P';
    LacksLetterOfVpn("when trying to access mailboxes.", 0);
  }

  lemma EmailDescriptionLacksVpn()
    ensures !Includes(ToLower("Users unable to connect to email server. " + "Multiple reports of timeout errors " + "when trying to access mailboxes."), "vpn")
  {
    EmailPiece1LacksVpn();
    EmailPiece2LacksVpn();
    EmailPiece3LacksVpn();
    ExcludedAcrossSpace("Users unable to connect to email server. ", "Multiple reports of timeout errors ", "vpn");
    ExcludedAcrossSpace("Users unable to connect to email server. " + "Multiple reports of timeout errors ", "when trying to access mailboxes.", "vpn");
  }

  lemma EmailNumberLacksVpn()
    ensures !Includes(ToLower("INC0012345"), "vpn")
  {
    assert UpperChar('v') == 'V';
    LacksLetterOfVpn("INC0012345", 0);
  }

  lemma EmailLacksVpn()
    ensures LacksVpn(EmailIncident)
  {
    EmailTitleLacksVpn();
    EmailDescriptionLacksVpn();
    EmailNumberLacksVpn();
  }

  lemma DatabaseTitleLacksVpn()
    ensures !Includes(ToLower("Database Performance Degradation"), "vpn")
  {
    assert UpperChar('v') == 'V' && UpperChar('p') == 'P';
    LacksLetterOfVpn("Database Performance Degradation", 0);
  }

  lemma DatabasePiece1LacksVpn()
    ensures !Includes(ToLower("Application database showing slow "), "vpn")
  {
    assert UpperChar('v') == 'V' && UpperChar('p') == 'P';
    LacksLetterOfVpn("Application database showing slow ", 0);
  }

  lemma DatabasePiece2LacksVpn()
    ensures !Includes(ToLower("response times. Query execution "), "vpn")
  {
    assert UpperChar('v') == 'V' && UpperChar('p') == 'P';
    LacksLetterOfVpn("response times. Query execution ", 0);
  }

  lemma DatabasePiece3LacksVpn()
    ensures !Includes(ToLower("taking significantly longer than normal."), "vpn")
  {
    assert UpperChar('v') == 'V' && UpperChar('p') == 'P';
    LacksLetterOfVpn("taking significantly longer than normal.", 0);
  }

  lemma DatabaseDescriptionLacksVpn()
    ensures !Includes(ToLower("Application database showing slow " + "response times. Query execution " + "taking significantly longer than normal."), "vpn")
  {
    DatabasePiece1LacksVpn();
    DatabasePiece2LacksVpn();
    DatabasePiece3LacksVpn();
    ExcludedAcrossSpace("Application database showing slow ", "response times. Query execution ", "vpn");
    ExcludedAcrossSpace("Application database showing slow " + "response times. Query execution ", "taking significantly longer than normal.", "vpn");
  }

  lemma DatabaseNumberLacksVpn()
    ensures !Includes(ToLower("INC0012347"), "vpn")
  {
    assert UpperChar('v') == 'V';
    LacksLetterOfVpn("INC0012347", 0);
  }

  lemma DatabaseLacksVpn()
    ensures LacksVpn(DatabaseIncident)
  {
    DatabaseTitleLacksVpn();
    DatabaseDescriptionLacksVpn();
    DatabaseNumberLacksVpn();
  }

  lemma PrinterTitleLacksVpn()
    ensures !Includes(ToLower("Printer Queue Stuck"), "vpn")
  {
    assert UpperChar('v') == 'V' && UpperChar('p') == 'P';
    LacksLetterOfVpn("Printer Queue Stuck", 0);
  }

  lemma PrinterPiece1LacksVpn()
    ensures !Includes(ToLower("Print jobs accumulating in queue but "), "vpn")
  {
    assert UpperChar('v') == 'V' && UpperChar('p') == 'P';
    LacksLetterOfVpn("Print jobs accumulating in queue but ", 0);
  }

  lemma PrinterPiece2LacksVpn()
    ensures !Includes(ToLower("not processing. Affecting multiple "), "vpn")
  {
    assert UpperChar('v') == 'V' && UpperChar('p') == 'P';
    LacksLetterOfVpn("not processing. Affecting multiple ", 0);
  }

  lemma PrinterPiece3LacksVpn()
    ensures !Includes(ToLower("printers on floor 3."), "vpn")
  {
    assert UpperChar('v') == 'V' && UpperChar('p') == 'P';
    LacksLetterOfVpn("printers on floor 3.", 0);
  }

  lemma PrinterDescriptionLacksVpn()
    ensures !Includes(ToLower("Print jobs accumulating in queue but " + "not processing. Affecting multiple " + "printers on floor 3."), "vpn")
  {
    PrinterPiece1LacksVpn();
    PrinterPiece2LacksVpn();
    PrinterPiece3LacksVpn();
    ExcludedAcrossSpace("Print jobs accumulating in queue but ", "not processing. Affecting multiple ", "vpn");
    ExcludedAcrossSpace("Print jobs accumulating in queue but " + "not processing. Affecting multiple ", "printers on floor 3.", "vpn");
  }

  lemma PrinterNumberLacksVpn()
    ensures !Includes(ToLower("INC0012348"), "vpn")
  {
    assert UpperChar('v') == 'V';
    LacksLetterOfVpn("INC0012348", 0);
  }

  lemma PrinterLacksVpn()
    ensures LacksVpn(PrinterIncident)
  {
    PrinterTitleLacksVpn();
    PrinterDescriptionLacksVpn();
    PrinterNumberLacksVpn();
  }

  lemma VpnSearchShowsVpn()
    ensures Matches(VpnIncident, VpnSearch)
  {
    assert ToLower(VpnSearch.searchTerm) == "vpn";
    assert OccursAt(ToLower(VpnIncident.title), "vpn", 0);
  }

  /**
   Searching "vpn" shows exactly the "VPN Connection Failures" incident; in
   particular "Printer Queue Stuck" is hidden.
   */
  lemma VpnSearchScenario()
    ensures FilterIncidents(MockIncidents, VpnSearch) == [VpnIncident]
    ensures PrinterIncident !in FilterIncidents(MockIncidents, VpnSearch)
  {
    EmailLacksVpn();
    LacksVpnNotMatched(EmailIncident);
    VpnSearchShowsVpn();
    DatabaseLacksVpn();
    LacksVpnNotMatched(DatabaseIncident);
    PrinterLacksVpn();
    LacksVpnNotMatched(PrinterIncident);
    var m := MockIncidents;
    assert m[3..][1..] == [];
    assert m[2..][1..] == m[3..];
    assert m[1..][1..] == m[2..];
    assert FilterIncidents(m[3..], VpnSearch) == [];
    assert FilterIncidents(m[2..], VpnSearch) == [];
    assert FilterIncidents(m[1..], VpnSearch) == [VpnIncident];
  }
}
