# FaceKey attendance front end — a Dafny model

FaceKey is a React front end for recording employee attendance by facial
recognition. Employees clock in and out and browse their own attendance
history. HR staff and administrators follow the day's activity, manage
the employee directory and produce attendance reports. Its data is
mocked in memory or kept in the browser's `localStorage`. The pages hold
a good deal of small, deterministic logic, and this project models that
logic and proves what it promises.

The model has one Dafny module per component, named after it, plus four
shared modules:

- `Common`: options, ASCII lower-casing, substring search (`includes`), filtering and counting, subsequences, `Math.round` of a percentage, decimal numerals and `parseFloat` on them, two-digit padding.
- `Dates`: calendar days (`Date` with a zero-based month), days in a month, weekdays, `setMonth` with its overflow, the `YYYY-MM-DD` key of `toISOString` and its parser.
- `Sorting`: the column sort shared by the employee table and the report preview. It is an insertion sort on an array, proved sorted and a permutation.
- `Employees`: the employee record shared by the employee-management components.

The form of each module follows its source:

- A component whose handlers update its state becomes a class. Each handler is a method whose `ensures` gives the whole new state.
- Values passed up to the parent (`onExport`, `onGenerateReport`, navigation, `localStorage` writes) are recorded in fields of that class.
- Loops in the source become methods with loop invariants, each proved against a specification function.
- Pure helpers become functions, and lemmas relate them.

Time, the network, the camera, the window size and scroll position, and
the results of service calls all enter as parameters.

## Model

| member | source | states |
|---|---|---|
| Common.Lower | src/pages/personal-attendance-history/index.jsx:165-168 | toLowerCase keeps the length and lower-cases each character |
| Common.Includes | src/pages/personal-attendance-history/index.jsx:166-168 | includes is true iff the term occurs at some index of the string |
| Common.Filter | src/pages/personal-attendance-history/index.jsx:150-166 | filter never lengthens the list and keeps exactly the elements that pass |
| Common.FilterIsSubseq | src/pages/personal-attendance-history/index.jsx:150-166 | the elements filter keeps stay in their original order |
| Common.FilterMultiset | src/pages/personal-attendance-history/index.jsx:150-166 | filter keeps each passing element as often as it occurred, and no other |
| Common.Distinct | src/pages/employee-management/index.jsx:179 | [...new Set(s)] holds every value of the list, and each value once |
| Common.DistinctFirstOccurrence | src/pages/employee-management/index.jsx:179 | the values come out in the order of their first occurrences |
| Common.Percentage | src/pages/employee-management/components/EmployeeStatsCard.jsx:36-37 | zero for an empty total; otherwise the integer nearest to 100·count/total, a half rounded up, and at most 100 when the count is within the total |
| Common.PercentOfWhole | src/pages/employee-management/components/EmployeeStatsCard.jsx:36-37 | a count equal to a positive total is 100 per cent |
| Common.PercentAtMost100 | src/pages/employee-management/components/DepartmentChart.jsx:31 | a share of a whole never rounds above 100 |
| Common.NatToStringRoundTrip | src/pages/employee-dashboard/index.jsx:64 | reading back the numeral ${n} gives n |
| Common.Pad2 | src/pages/employee-dashboard/index.jsx:64 | padStart(2, '0') of a number below 100 is two digits that denote it |
| Common.ParseFloatOfNumeral | src/pages/employee-dashboard/components/QuickStatsWidgets.jsx:95 | parseFloat of a numeral followed by a character that cannot continue a number gives the numeral's value |
| Dates.DaysInMonth | src/pages/personal-attendance-history/components/AttendanceCalendar.jsx:66-67 | the last date of a month is 28 to 31; it is 29 iff February of a leap year, and 28 iff February of another year |
| Dates.Weekday | src/pages/personal-attendance-history/components/AttendanceCalendar.jsx:68 | getDay is a weekday index from 0 to 6 |
| Dates.WeekdayOfNextMonth | src/pages/personal-attendance-history/components/AttendanceCalendar.jsx:65-68 | the first of the next month falls the month's length later in the week |
| Dates.OrdinalWithinMonth | src/pages/personal-attendance-history/components/AttendanceCalendar.jsx:78-80 | moving k days within a month moves the day count by k |
| Dates.IsoKey | src/pages/personal-attendance-history/components/AttendanceCalendar.jsx:43 | the YYYY-MM-DD key is ten characters with dashes at positions 4 and 7 |
| Dates.ParseIsoKey | src/pages/personal-attendance-history/components/AttendanceCalendar.jsx:43-44 | parsing a day's key gives back the day |
| Dates.IsoKeyOfParsed | src/pages/personal-attendance-history/index.jsx:150-155 | a date string that parses is exactly the key of the day it parses to |
| Sorting.StrLtIrreflexive | src/pages/employee-management/components/EmployeeTable.jsx:103 | no string is less than itself |
| Sorting.StrLtTransitive | src/pages/employee-management/components/EmployeeTable.jsx:103 | string order is transitive |
| Sorting.StrLtTotal | src/pages/employee-management/components/EmployeeTable.jsx:103 | of two different strings one is less than the other |
| Sorting.BeforeAsymmetric | src/pages/employee-management/components/EmployeeTable.jsx:103-105 | the comparator never puts two values before each other |
| Sorting.NotBeforeTransitive | src/pages/employee-management/components/EmployeeTable.jsx:103-105 | "not before" is transitive, so the comparator is a total preorder that sort can rely on |
| Sorting.Toggle | src/pages/employee-management/components/EmployeeTable.jsx:119-124 | the column becomes the clicked one, and the direction is descending iff that column was already ascending |
| Sorting.ToggleAlternates | src/pages/employee-management/components/EmployeeTable.jsx:119-124 | clicking the same column again always flips the direction |
| Sorting.SortInPlace | src/pages/employee-management/components/EmployeeTable.jsx:94-106 | after the in-place sort the array is sorted by the column under the direction and is a permutation of what it held |
| Sorting.SortedCopy | src/pages/attendance-reports/components/ReportPreview.jsx:150-161 | the sorted copy is sorted and a permutation of the rows |
| EmployeeManagement.FilterEmployees | src/pages/employee-management/index.jsx:172-177 | an employee is listed iff it passes every set filter (department, enrolment status, role), in the original order |
| EmployeeManagement.NoActiveFilterKeepsAll | src/pages/employee-management/index.jsx:172-177 | with no filter set every employee is listed |
| EmployeeManagement.FilterEmployeesCounts | src/pages/employee-management/index.jsx:172-177 | each passing employee is kept as often as it occurs, and the others are dropped |
| EmployeeManagement.UniqueDepartments | src/pages/employee-management/index.jsx:179 | each department of some employee, once, and no other |
| EmployeeManagement.DepartmentOptionsCoverEmployees | src/pages/employee-management/index.jsx:179 | every employee's department is offered by the department select, after the "all" option |
| EmployeeManagement.NewEmployee | src/pages/employee-management/index.jsx:185-193 | the record keeps the form's identity, department and role, is named first and last name with a space, is enrolled iff a face image was given, and is active since now |
| EmployeeManagement.WithoutId | src/pages/employee-management/index.jsx:206 | an employee remains iff it was there and does not carry the id |
| EmployeeManagement.WithoutIds | src/pages/employee-management/index.jsx:219 | an employee remains iff it was there and its id is not selected |
| EmployeeManagement.WithoutIdRemovesExactly | src/pages/employee-management/index.jsx:206 | deleting removes exactly the records with that id and keeps every other, in order |
| EmployeeManagement.DuplicateIdAfterDelete | src/pages/employee-management/index.jsx:186-206 | as written, from ids 1, 2, 3, deleting 1 and adding one repeats id 3, and deleting id 3 then removes two employees |
| EmployeeManagement.MaxId | src/pages/employee-management/index.jsx:186 | no employee's id exceeds it |
| EmployeeManagement.NextFreeId | src/pages/employee-management/index.jsx:186 | with the fix, the new id is carried by no employee |
| EmployeeManagement.AddKeepsIdsUnique | src/pages/employee-management/index.jsx:181-196 | with the fix, adding an employee to a list of distinct ids keeps the ids distinct |
| EmployeeManagement.DeleteKeepsIdsUnique | src/pages/employee-management/index.jsx:216-221 | removing selected employees keeps the ids distinct |
| EmployeeManagement.EmployeeDirectory.constructor | src/pages/employee-management/index.jsx:22-32 | the initial list, not exporting |
| EmployeeManagement.EmployeeDirectory.AddEmployee | src/pages/employee-management/index.jsx:181-196 | with the fix, the new employee is appended with a fresh id, and distinct ids stay distinct |
| EmployeeManagement.EmployeeDirectory.DeleteEmployee | src/pages/employee-management/index.jsx:204-209 | only a confirmed delete removes the employees with that id; distinct ids stay distinct |
| EmployeeManagement.EmployeeDirectory.BulkAct | src/pages/employee-management/index.jsx:216-229 | a confirmed bulk delete removes the selected ids, an unconfirmed one nothing; a bulk export leaves the list alone and ends with the flag off |
| EmployeeManagement.EmployeeDirectory.ExportAll | src/pages/employee-management/index.jsx:231-237 | the export flag ends off |
| EmployeeManagement.EmployeeDirectory.ExportDisabled | src/pages/employee-management/index.jsx:281 | the export button is disabled iff there is no employee |
| AddEmployeeModal.SetField | src/pages/employee-management/components/AddEmployeeModal.jsx:142-147 | the named field takes the value; every other field and the face image are unchanged |
| AddEmployeeModal.Step1IffRequiredFilled | src/pages/employee-management/components/AddEmployeeModal.jsx:202-206 | step 1 passes iff employee id, first and last name, email, department and role are all non-empty |
| AddEmployeeModal.OptionalFieldsIrrelevant | src/pages/employee-management/components/AddEmployeeModal.jsx:202-210 | editing the phone or the start date never changes whether any step passes |
| AddEmployeeModal.AddEmployeeWizard.constructor | src/pages/employee-management/components/AddEmployeeModal.jsx:14-28 | step 1, an empty form, no photo, webcam off, not loading |
| AddEmployeeModal.AddEmployeeWizard.InputChange | src/pages/employee-management/components/AddEmployeeModal.jsx:142-147 | the form becomes the one-field update and the wizard invariant (step in 1..3, earlier steps valid, preview equals face image) is kept |
| AddEmployeeModal.AddEmployeeWizard.StartWebcam | src/pages/employee-management/components/AddEmployeeModal.jsx:149-161 | with the webcam fix (see Findings): a granted camera becomes active, a refused one leaves the state as it was |
| AddEmployeeModal.AddEmployeeWizard.StopWebcam | src/pages/employee-management/components/AddEmployeeModal.jsx:163-170 | the webcam is off afterwards |
| AddEmployeeModal.AddEmployeeWizard.CapturePhoto | src/pages/employee-management/components/AddEmployeeModal.jsx:172-187 | the preview and the form's face image are set to the same frame and the webcam stops |
| AddEmployeeModal.AddEmployeeWizard.UploadPhoto | src/pages/employee-management/components/AddEmployeeModal.jsx:189-200 | the preview and the form's face image are set to the same uploaded data |
| AddEmployeeModal.AddEmployeeWizard.Retake | src/pages/employee-management/components/AddEmployeeModal.jsx:450-453 | preview and face image are cleared, after which step 2 no longer passes |
| AddEmployeeModal.AddEmployeeWizard.Next | src/pages/employee-management/components/AddEmployeeModal.jsx:214-218 | below the last step, advances by exactly one iff the current step passes; the step stays within 1..3 |
| AddEmployeeModal.AddEmployeeWizard.Previous | src/pages/employee-management/components/AddEmployeeModal.jsx:220-222 | above the first step, goes back exactly one; the step stays within 1..3 |
| AddEmployeeModal.AddEmployeeWizard.Close | src/pages/employee-management/components/AddEmployeeModal.jsx:236-252 | webcam off, step 1, every text field empty, face image and preview null, and onClose called once |
| AddEmployeeModal.AddEmployeeWizard.Save | src/pages/employee-management/components/AddEmployeeModal.jsx:224-234 | the form handed to onSave is the current one and passes steps 1 and 2; on success the wizard is closed and reset, on failure nothing changes; loading ends false either way |
| AddEmployeeModal.WebcamNeverStarts | src/pages/employee-management/components/AddEmployeeModal.jsx:154-156 | as written, starting from an inactive webcam, the webcam is still inactive after startWebcam, granted or not |
| AddEmployeeModal.WebcamAfterStartFixed | src/pages/employee-management/components/AddEmployeeModal.jsx:149-161 | a granted camera is active afterwards; a refused one leaves the flag as it was |
| EmployeeTable.Search | src/pages/employee-management/components/EmployeeTable.jsx:86-91 | an employee is kept iff the lower-cased term occurs in its lower-cased name, employee id, department or role |
| EmployeeTable.EmptySearchKeepsAll | src/pages/employee-management/components/EmployeeTable.jsx:86-91 | an empty search keeps every employee in order |
| EmployeeTable.SearchIgnoresCase | src/pages/employee-management/components/EmployeeTable.jsx:86-91 | searching for a term and for its lower-cased form match the same employees |
| EmployeeTable.FilterAndSort | src/pages/employee-management/components/EmployeeTable.jsx:85-110 | the rows are a permutation of the search result, sorted by the chosen column in the chosen direction |
| EmployeeTable.TotalPages | src/pages/employee-management/components/EmployeeTable.jsx:117 | Math.ceil(n / 10): zero for no rows, otherwise the fewest pages of ten that hold the rows |
| EmployeeTable.Page | src/pages/employee-management/components/EmployeeTable.jsx:112-115 | at most ten rows, which are the list's rows from (page-1)·10 on, in order; a short page reaches the end of the list |
| EmployeeTable.RowOnItsPage | src/pages/employee-management/components/EmployeeTable.jsx:112-117 | row i appears at position i mod 10 of page i/10 + 1, a page that exists |
| EmployeeTable.PageEmptyIffBeyond | src/pages/employee-management/components/EmployeeTable.jsx:112-117 | a page is empty iff it lies beyond the last page |
| EmployeeTable.PaginationShownIffMoreThanAPage | src/pages/employee-management/components/EmployeeTable.jsx:406 | the pager is shown iff there are more than ten rows |
| EmployeeTable.ShowingRangeMatchesPage | src/pages/employee-management/components/EmployeeTable.jsx:409 | on an existing page, the "from-to" text counts exactly the rows shown |
| EmployeeTable.NextPage | src/pages/employee-management/components/EmployeeTable.jsx:427 | "next" moves one page on, never past the last |
| EmployeeTable.PreviousPage | src/pages/employee-management/components/EmployeeTable.jsx:415 | "previous" moves one page back, never below the first |
| EmployeeTable.SearchStrandsPage | src/pages/employee-management/components/EmployeeTable.jsx:19 | as written, from page 3 a search with five matches shows an empty page and no pager |
| EmployeeTable.ClampPage | src/pages/employee-management/components/EmployeeTable.jsx:186 | with the fix, the page is at least 1, within the existing pages when there are results, and unchanged when already valid |
| EmployeeTable.ClampedPageShowsRows | src/pages/employee-management/components/EmployeeTable.jsx:112-186 | with the fix, a search with results always shows some rows |
| EmployeeTable.Deselect | src/pages/employee-management/components/EmployeeTable.jsx:134-140 | the id is gone from the selection, and every other id stays, as often as before and in its original order (a subsequence) |
| EmployeeTable.HeaderCheckedWithNothingSelected | src/pages/employee-management/components/EmployeeTable.jsx:223 | as written, after selecting all ten rows of page 1, the header box on page 2 is checked although none of its rows is selected |
| EmployeeTable.SelectAllChecksHeader | src/pages/employee-management/components/EmployeeTable.jsx:126-132 | with the fix, "select all" checks the header box of a non-empty page, and an empty selection leaves it unchecked |
| EmployeeTable.EnrollmentBadge | src/pages/employee-management/components/EmployeeTable.jsx:142-155 | "enrolled" and "pending" get their badges; every other status gets the not-enrolled badge |
| EmployeeTable.EmployeeTableState.constructor | src/pages/employee-management/components/EmployeeTable.jsx:16-19 | no search, sorted by name ascending, nothing selected, page 1 |
| EmployeeTable.EmployeeTableState.SetSearch | src/pages/employee-management/components/EmployeeTable.jsx:186 | with the fix, the term is set and the page brought into range, so a search with results shows rows |
| EmployeeTable.EmployeeTableState.HeaderBox | src/pages/employee-management/components/EmployeeTable.jsx:223 | with the fix, over the current page of the rows the table displays (the search result for its term, sorted on its configuration), the header box is checked iff that page has rows and every one of them is selected |
| EmployeeTable.EmployeeTableState.Sort | src/pages/employee-management/components/EmployeeTable.jsx:119-124 | the sort configuration becomes the toggle of the previous one on that column |
| EmployeeTable.EmployeeTableState.SelectAll | src/pages/employee-management/components/EmployeeTable.jsx:126-132 | checking selects the ids of the current page of the displayed rows (the search result for the table's term, sorted on its configuration) and checks the header box when that page has rows; unchecking clears the selection and unchecks the box |
| EmployeeTable.EmployeeTableState.SelectEmployee | src/pages/employee-management/components/EmployeeTable.jsx:134-140 | checking appends the id; unchecking removes every occurrence of it |
| EmployeeTable.EmployeeTableState.NextPageClick | src/pages/employee-management/components/EmployeeTable.jsx:427 | over the displayed rows with the pager shown, the page becomes NextPage of the previous one against their page count, and a page within range stays within range |
| EmployeeTable.EmployeeTableState.PreviousPageClick | src/pages/employee-management/components/EmployeeTable.jsx:415 | the page becomes PreviousPage of the previous one |
| QuickFilters.ChangeFilter | src/pages/employee-management/components/QuickFilters.jsx:72-77 | the emitted filters hold the new value under the changed key and every other key unchanged |
| QuickFilters.ActiveFilterCount | src/pages/employee-management/components/QuickFilters.jsx:87 | the count is at most the three keys, and zero exactly for the cleared record |
| QuickFilters.ClearedHasNoActiveFilter | src/pages/employee-management/components/QuickFilters.jsx:79-95 | clearing sets every key to empty, leaving no active filter and no clear button |
| QuickFilters.ChangeFilterCount | src/pages/employee-management/components/QuickFilters.jsx:72-95 | setting a key to a non-empty value shows the clear button; the count changes by the key's old and new activity only |
| QuickFilters.DepartmentOptions | src/pages/employee-management/components/QuickFilters.jsx:52-55 | the options are "all departments" (the empty value) followed by each department given, in order |
| EmployeeStats.ComputeStats | src/pages/employee-management/components/EmployeeStatsCard.jsx:29-34 | the total is the number of employees; enrolled and pending together, and active alone, never exceed it |
| EmployeeStats.CountsComplement | src/pages/employee-management/components/EmployeeStatsCard.jsx:29-34 | each count plus the number of employees it does not count is the total |
| EmployeeStats.CountsAreOccurrences | src/pages/employee-management/components/EmployeeStatsCard.jsx:31-33 | each count keeps exactly the employees with that status, each as often as it occurs |
| EmployeeStats.EnrollmentRate | src/pages/employee-management/components/EmployeeStatsCard.jsx:36 | the enrolment rate is at most 100, and zero without employees |
| EmployeeStats.ActiveRate | src/pages/employee-management/components/EmployeeStatsCard.jsx:37 | the activity rate is at most 100, and zero without employees |
| EmployeeStats.AllEnrolledIsFullRate | src/pages/employee-management/components/EmployeeStatsCard.jsx:36 | when every employee is enrolled the rate is 100 |
| EmployeeStats.NoneEnrolledIsZeroRate | src/pages/employee-management/components/EmployeeStatsCard.jsx:36 | when nobody is enrolled the rate is 0 |
| EmployeeStats.RateMonotone | src/pages/employee-management/components/EmployeeStatsCard.jsx:36-37 | more employees counted never gives a lower rate over the same total |
| DepartmentChart.DepartmentCounts | src/pages/employee-management/components/DepartmentChart.jsx:22-26 | a department has an entry iff some employee is in it, and its count is the number of employees in it |
| DepartmentChart.CountsPositive | src/pages/employee-management/components/DepartmentChart.jsx:22-26 | every department counted has at least one employee |
| DepartmentChart.ChartData | src/pages/employee-management/components/DepartmentChart.jsx:28-32 | one entry per department in the order of first appearance (the order of `Object.entries` when no department name is an array index), with its head count and Percentage of the head count over all employees |
| DepartmentChart.EntryBounds | src/pages/employee-management/components/DepartmentChart.jsx:28-32 | each entry counts between one and all of the employees, and its percentage is at most 100 |
| DepartmentChart.ChartEntriesAreDepartments | src/pages/employee-management/components/DepartmentChart.jsx:28-32 | a name is charted iff some employee is in that department, and no department is charted twice |
| DepartmentChart.ChartCountsSumToTotal | src/pages/employee-management/components/DepartmentChart.jsx:22-32 | the counts of the chart add up to the number of employees |
| DepartmentChart.NoDataIffNoEmployee | src/pages/employee-management/components/DepartmentChart.jsx:58-69 | the no-data panel is shown iff there is no employee |
| DepartmentChart.EntryColor | src/pages/employee-management/components/DepartmentChart.jsx:34-91 | every entry takes one of the six colours |
| DepartmentChart.ColorCycle | src/pages/employee-management/components/DepartmentChart.jsx:34-106 | colours repeat every six entries, and six consecutive entries have six different colours |
| LoginPage.DashboardFor | src/pages/login-authentication/index.jsx:20-27 | the HR dashboard iff the role is hr or admin, the employee dashboard for every other role |
| LoginPage.RedirectTarget | src/pages/login-authentication/index.jsx:13-29 | a redirect happens iff the authenticated flag is "true" and a non-empty role is stored, and it goes to that role's dashboard |
| LoginPage.Lookup | src/pages/login-authentication/index.jsx:15-31 | a stored key reads as its value, a missing one as nothing |
| LoginPage.RestoredLanguage | src/pages/login-authentication/index.jsx:31-34 | a non-empty saved language replaces the current one, otherwise it stays |
| LoginPage.LoginPageState.Mount | src/pages/login-authentication/index.jsx:13-35 | the page navigates to the redirect target of the stored session, if any, and restores the saved language |
| LoginPage.LoginPageState.ChangeLanguage | src/pages/login-authentication/index.jsx:37-40 | the language becomes the chosen one and is stored, nothing else in storage changes |
| LoginPage.LoginThenRevisit | src/pages/login-authentication/index.jsx:13-35 | after a successful login, revisiting the page redirects to the role's dashboard and restores the language the form stored |
| LoginPage.HrLoginLandingDiffers | src/pages/login-authentication/index.jsx:20-27 | an HR user is sent to the HR dashboard on revisit, not to the employee dashboard where the form landed them |
| LoginForm.AtIndex | src/pages/login-authentication/components/LoginForm.jsx:59 | the index found is the first '@' of the address, or its length when there is none |
| LoginForm.EmailPatternIffShape | src/pages/login-authentication/components/LoginForm.jsx:59 | the address pattern holds exactly when the address has one '@' with a non-empty name before it and a domain after it holding an inner dot, and no whitespace |
| LoginForm.FormErrors | src/pages/login-authentication/components/LoginForm.jsx:55-67 | an email error iff the address fails the pattern, "required" when it is empty and "invalid" otherwise; a password error, "required", iff the password is empty; no other key |
| LoginForm.FormValidIff | src/pages/login-authentication/components/LoginForm.jsx:55-67 | the form validates iff the address matches the pattern and the password is non-empty |
| LoginForm.EmptyEmailIsRequired | src/pages/login-authentication/components/LoginForm.jsx:57-61 | the empty address never matches the pattern, so it is reported as required |
| LoginForm.SessionWritesKeys | src/pages/login-authentication/components/LoginForm.jsx:89-95 | a successful login stores the role, id, address, name, language and the authenticated flag, and leaves every other stored key as it was |
| LoginForm.LoginFormState.SubmitDisabled | src/pages/login-authentication/components/LoginForm.jsx:170 | when not loading, the button is disabled iff three or more attempts have failed |
| LoginForm.LoginFormState.InputChange | src/pages/login-authentication/components/LoginForm.jsx:69-74 | only the edited field changes, and its error is cleared only when one was shown |
| LoginForm.LoginFormState.ValidateForm | src/pages/login-authentication/components/LoginForm.jsx:55-67 | the errors become those of the form, and the result is true iff the form is valid |
| LoginForm.LoginFormState.Attempt | src/pages/login-authentication/components/LoginForm.jsx:84-108 | one service call; matching credentials write the session and open the employee dashboard; a mismatch counts a failure, reporting the lock from the third; a thrown error reports invalid credentials |
| LoginForm.LoginFormState.Submit | src/pages/login-authentication/components/LoginForm.jsx:76-108 | a locked form only reports the lock; an invalid form makes no service call; a valid one makes exactly one attempt; the fields never change |
| LoginForm.ThreeFailuresLock | src/pages/login-authentication/components/LoginForm.jsx:76-108 | after three rejected logins the form reports the lock, makes no further service call and disables the button |
| EmployeeDashboard.Elapsed | src/pages/employee-dashboard/index.jsx:62-63 | the whole hours and the minutes of the current hour: minutes below 60, and together they bracket the elapsed time to the minute |
| EmployeeDashboard.FormatElapsedReadsBack | src/pages/employee-dashboard/index.jsx:64 | the text is the hours' numeral, "h ", two digits for the minutes and "m", and the digits read back as the hours and minutes |
| EmployeeDashboard.ProgressOfFormatted | src/pages/employee-dashboard/components/TodaySummaryCard.jsx:163 | the summary card's bar formula on text of the tick's `${h}h ${mm}m` shape reads the whole hours: hours/8 of the bar under eight hours, full from eight hours on; the dashboard passes the card the service's total, not this text |
| EmployeeDashboard.ZeroHoursIsFormatted | src/pages/employee-dashboard/index.jsx:19-64 | the starting text "0h 00m" is the formatted zero duration |
| EmployeeDashboard.Lookup | src/pages/employee-dashboard/index.jsx:43-45 | getItem gives a value iff the key is stored, and then the stored value |
| EmployeeDashboard.DashboardState.constructor | src/pages/employee-dashboard/index.jsx:14-19 | French, clocked out, not loading, no clock-in time, "0h 00m" |
| EmployeeDashboard.DashboardState.RestoreLanguage | src/pages/employee-dashboard/index.jsx:36-39 | the saved selectedLanguage, or French when it is missing or empty |
| EmployeeDashboard.DashboardState.RestoreClock | src/pages/employee-dashboard/index.jsx:42-52 | only a saved clockedIn of 'true' restores the clocked state, the saved time and the saved hours (or "0h 00m"); otherwise nothing changes |
| EmployeeDashboard.DashboardState.Tick | src/pages/employee-dashboard/index.jsx:55-67 | the hours become the formatted elapsed time, which is also saved under totalHours; this text is never rendered |
| EmployeeDashboard.DashboardState.ClockIn | src/pages/employee-dashboard/index.jsx:86-114 | clocked in at the displayed time with "0h 00m"; clockedIn, the ISO time and the hours are saved; loading ends |
| EmployeeDashboard.DashboardState.ClockOut | src/pages/employee-dashboard/index.jsx:116-140 | clocked out, no time, "0h 00m", and exactly the three clock keys are removed; loading ends |
| EmployeeDashboard.DashboardState.ChangeLanguage | src/pages/employee-dashboard/index.jsx:72-75 | the language is set and saved under selectedLanguage |
| EmployeeDashboard.DashboardState.Logout | src/pages/employee-dashboard/index.jsx:77-84 | exactly the language and the three clock keys are removed, and the login page opens |
| EmployeeDashboard.ClockInSurvivesReload | src/pages/employee-dashboard/index.jsx:42-114 | after a clock-in, a freshly loaded page is clocked in with the ISO time and "0h 00m" |
| EmployeeDashboard.ClockOutSurvivesReload | src/pages/employee-dashboard/index.jsx:42-52 | after a clock-out or a logout, a freshly loaded page is clocked out |
| FacialRecognition.ErrorFor | src/pages/employee-dashboard/components/FacialRecognitionPanel.jsx:117-125 | NotAllowedError, NotFoundError and NotReadableError each get their own message, and every other error name gets the generic camera error |
| FacialRecognition.ClockButtonsExclusive | src/pages/employee-dashboard/components/FacialRecognitionPanel.jsx:275-287 | the two buttons are never enabled together, an enabled one has an active, ready camera, and with a ready camera and nothing loading exactly one is enabled |
| FacialRecognition.CameraPanel.constructor | src/pages/employee-dashboard/components/FacialRecognitionPanel.jsx:10-13 | no stream, inactive, not ready, no error |
| FacialRecognition.CameraPanel.ReadyShown | src/pages/employee-dashboard/components/FacialRecognitionPanel.jsx:190-194 | the ready indicator is on iff the camera is ready, which implies it is active |
| FacialRecognition.CameraPanel.StartWebcam | src/pages/employee-dashboard/components/FacialRecognitionPanel.jsx:70-130 | a granted stream makes the camera active but not yet ready, with no error; a refusal shows the error for its name and leaves the camera off; a ready camera is always active |
| FacialRecognition.CameraPanel.MetadataLoaded | src/pages/employee-dashboard/components/FacialRecognitionPanel.jsx:94-97 | the loadedmetadata event makes the active camera ready |
| FacialRecognition.CameraPanel.VideoFailed | src/pages/employee-dashboard/components/FacialRecognitionPanel.jsx:100-103 | the video error event shows the playback error |
| FacialRecognition.CameraPanel.StopWebcam | src/pages/employee-dashboard/components/FacialRecognitionPanel.jsx:132-149 | afterwards there is no stream, the camera is inactive and not ready, and no error is shown, whatever the state before |
| FacialRecognition.CameraPanel.ClockAction | src/pages/employee-dashboard/components/FacialRecognitionPanel.jsx:151-167 | without an active, ready camera no callback is called and "start the camera first" is shown; otherwise 'in' calls clock-in and anything else clock-out, and a throwing callback shows the recognition error |
| FacialRecognition.StartThenClockIn | src/pages/employee-dashboard/components/FacialRecognitionPanel.jsx:70-97 | starting the camera, receiving its metadata and clocking in reaches the clock-in callback |
| FacialRecognition.StartWithoutMetadataIsGated | src/pages/employee-dashboard/components/FacialRecognitionPanel.jsx:70-88 | before the metadata event the clock-in callback is never reached and "start the camera first" is shown |
| TodaySummary.StatusOf | src/pages/employee-dashboard/components/TodaySummaryCard.jsx:42-65 | clocked in iff clocked; clocked out iff not clocked but an arrival time is set; not clocked in iff neither |
| TodaySummary.FormatTime | src/pages/employee-dashboard/components/TodaySummaryCard.jsx:69-72 | the placeholder "--:--" for a missing or empty time, the time itself otherwise |
| TodaySummary.Progress | src/pages/employee-dashboard/components/TodaySummaryCard.jsx:163 | a width iff the total parses as a number; it never exceeds 100, is the total over 8 hours as a percentage up to 8 hours, and 100 from there on |
| TodaySummary.DashboardNeverShowsNotClockedIn | src/pages/employee-dashboard/index.jsx:194-200 | since the dashboard passes the arrival time or "0", the card never shows "not clocked in" |
| QuickStats.RemoveFirst | src/pages/employee-dashboard/components/QuickStatsWidgets.jsx:95 | removing a character that does not occur changes nothing; removing one that does shortens the text by one |
| QuickStats.RemoveFirstSplits | src/pages/employee-dashboard/components/QuickStatsWidgets.jsx:95 | the removal cuts out exactly the first occurrence of the character |
| QuickStats.FirstToken | src/pages/employee-dashboard/components/QuickStatsWidgets.jsx:95 | the first token is the longest prefix without a space, and is followed by a space when it is not the whole text |
| QuickStats.WeeklyProgress | src/pages/employee-dashboard/components/QuickStatsWidgets.jsx:94-98 | the progress never exceeds 100, is the hours over 40 as a percentage up to 40 hours, and 100 from there on |
| QuickStats.HoursOfFormatted | src/pages/employee-dashboard/components/QuickStatsWidgets.jsx:95 | a text "<n>h <minutes>m" is read as n hours |
| QuickStats.ZeroHoursNoProgress | src/pages/employee-dashboard/components/QuickStatsWidgets.jsx:94-98 | the placeholder "0" shows no progress |
| QuickStats.AttendanceStatus | src/pages/employee-dashboard/components/QuickStatsWidgets.jsx:68-72 | excellent iff at least 95, good iff from 85 to below 95, needs improvement iff below 85 |
| QuickStats.AttendanceStatusMonotone | src/pages/employee-dashboard/components/QuickStatsWidgets.jsx:68-72 | a higher attendance never gets a worse rating |
| QuickStats.DisplaySchedule | src/pages/employee-dashboard/components/QuickStatsWidgets.jsx:47-66 | the schedule shown is never empty: the given one whole when it has an entry, the two mock shifts otherwise |
| ActivityTimeline.ConfigFor | src/pages/employee-dashboard/components/RecentActivityTimeline.jsx:78-110 | clock_out, break and resume each get their own configuration; every other type, known or not, gets the clock-in one |
| ActivityTimeline.ConfigIconsDistinct | src/pages/employee-dashboard/components/RecentActivityTimeline.jsx:79-108 | the four configurations carry four different icons |
| ActivityTimeline.MockActivities | src/pages/employee-dashboard/components/RecentActivityTimeline.jsx:38-74 | the built-in list holds five activities |
| ActivityTimeline.Shown | src/pages/employee-dashboard/components/RecentActivityTimeline.jsx:173 | at most five entries are shown: the first min(5, n), in order |
| ActivityTimeline.ListedActivities | src/pages/employee-dashboard/components/RecentActivityTimeline.jsx:76 | the first five given activities, or the mock list when none is given, so the list is never empty |
| ActivityTimeline.ConnectorsBetweenEntries | src/pages/employee-dashboard/components/RecentActivityTimeline.jsx:175-180 | every shown entry except the last has a connector line below it |
| ActivityTimeline.Bucket | src/pages/employee-dashboard/components/RecentActivityTimeline.jsx:112-137 | under an hour the whole minutes, floored (m·60000 ≤ diff < (m+1)·60000); under 24 h the time of day; under 48 h yesterday plus the time; otherwise the date |
| ActivityTimeline.BucketMonotone | src/pages/employee-dashboard/components/RecentActivityTimeline.jsx:112-137 | an older activity never lands in a more recent bucket or shows fewer minutes |
| ActivityTimeline.MockBuckets | src/pages/employee-dashboard/components/RecentActivityTimeline.jsx:38-74 | the mock entries fall in the buckets their comments announce (time of day, 30 min, yesterday) |
| ActivityTimeline.MethodIcon | src/pages/employee-dashboard/components/RecentActivityTimeline.jsx:140-142 | Camera iff the method is facial_recognition, Smartphone otherwise |
| TimeAgo.AgoOf | src/pages/hr-admin-dashboard/components/AlertsPanel.jsx:70-79 | "now" iff under a minute old; whole minutes, from 1 to 59, iff under an hour, each bracketing the age; otherwise the whole hours bracketing the age |
| TimeAgo.HoursBracket | src/pages/hr-admin-dashboard/components/AlertsPanel.jsx:72-77 | the whole hours of the whole minutes are the whole hours of the milliseconds |
| TimeAgo.AgoTextReadsBack | src/pages/hr-admin-dashboard/components/AlertsPanel.jsx:74-78 | the number at the head of a minutes or hours label reads back as the count it was written from |
| TimeAgo.AgoMonotone | src/pages/hr-admin-dashboard/components/RecentActivity.jsx:84-93 | an older entry never gets a more recent label |
| AlertsPanel.UnreadCount | src/pages/hr-admin-dashboard/components/AlertsPanel.jsx:134 | the count is at most the number of alerts, and it is zero iff every alert is read |
| AlertsPanel.MarkAsRead | src/pages/hr-admin-dashboard/components/AlertsPanel.jsx:120-124 | same length; an alert is read afterwards iff it was read or carries the id; every other field is unchanged |
| AlertsPanel.MarkAsReadLowersUnread | src/pages/hr-admin-dashboard/components/AlertsPanel.jsx:120-134 | marking never raises the unread count, and lowers it when an unread alert carries the id |
| AlertsPanel.MarkAsReadIdempotent | src/pages/hr-admin-dashboard/components/AlertsPanel.jsx:120-124 | marking the same id twice is marking it once |
| AlertsPanel.Dismiss | src/pages/hr-admin-dashboard/components/AlertsPanel.jsx:126-128 | an alert remains iff it was there and does not carry the id |
| AlertsPanel.DismissKeepsOthers | src/pages/hr-admin-dashboard/components/AlertsPanel.jsx:126-128 | the result keeps the original order, and every other alert keeps its multiplicity while those with the id are gone |
| AlertsPanel.MarkAllAsRead | src/pages/hr-admin-dashboard/components/AlertsPanel.jsx:130-132 | same length; every alert is read, with no other field changed |
| AlertsPanel.MarkAllClearsUnread | src/pages/hr-admin-dashboard/components/AlertsPanel.jsx:130-148 | afterwards the unread count is zero, so the badge and the button are hidden; a second mark-all changes nothing |
| AlertsPanel.MarkAllIsEveryMark | src/pages/hr-admin-dashboard/components/AlertsPanel.jsx:120-132 | marking all read equals marking each alert's id read in turn |
| AlertsPanel.MarkEachMarks | src/pages/hr-admin-dashboard/components/AlertsPanel.jsx:120-124 | marking a list of ids in turn reads exactly the alerts whose id is listed, leaving everything else as it was |
| AlertsPanel.AlertStyle | src/pages/hr-admin-dashboard/components/AlertsPanel.jsx:81-118 | error, warning and info get their own icon and colour; every other type, and only those, gets the muted bell |
| AlertsPanel.InitialPanel | src/pages/hr-admin-dashboard/components/AlertsPanel.jsx:6-79 | three of the four mock alerts start unread, labelled 30 min, 1 h, 2 h and 3 h old |
| AlertsPanel.AlertsPanelState.constructor | src/pages/hr-admin-dashboard/components/AlertsPanel.jsx:6-43 | the panel starts with the four mock alerts |
| AlertsPanel.AlertsPanelState.MarkAsReadClick | src/pages/hr-admin-dashboard/components/AlertsPanel.jsx:207-211 | the list becomes MarkAsRead of the previous one |
| AlertsPanel.AlertsPanelState.DismissClick | src/pages/hr-admin-dashboard/components/AlertsPanel.jsx:220 | the list becomes Dismiss of the previous one |
| AlertsPanel.AlertsPanelState.MarkAllClick | src/pages/hr-admin-dashboard/components/AlertsPanel.jsx:148-155 | the list becomes MarkAllAsRead of the previous one |
| HrRecentActivity.ActionIcon | src/pages/hr-admin-dashboard/components/RecentActivity.jsx:95-104 | log-in iff clocked in, log-out iff clocked out, and the neutral clock for every other action |
| HrRecentActivity.ActionColor | src/pages/hr-admin-dashboard/components/RecentActivity.jsx:106-116 | the warning colour iff the entry is late; otherwise by the action, with the primary colour for an unknown one |
| HrRecentActivity.LateTextExtendsOnTime | src/pages/hr-admin-dashboard/components/RecentActivity.jsx:118-121 | the late text is the on-time text followed by the lateness note in brackets; any action but clockedIn reads as clocked out |
| HrRecentActivity.LatenessVisible | src/pages/hr-admin-dashboard/components/RecentActivity.jsx:118-121 | in French and in English, the late and on-time texts of an action differ |
| HrRecentActivity.EntryLabels | src/pages/hr-admin-dashboard/components/RecentActivity.jsx:31-93 | the five entries are labelled 5, 15, 30 and 45 minutes and one hour old |
| FilterToolbar.Get | src/pages/hr-admin-dashboard/components/FilterToolbar.jsx:109-114 | reading a key gives a value iff the key is set, and then its value |
| FilterToolbar.ActiveIffAwayFromDefaults | src/pages/hr-admin-dashboard/components/FilterToolbar.jsx:109-114 | the defaults are not active, and a record is inactive iff its four main keys hold their defaults |
| FilterToolbar.DatesNeverActivate | src/pages/hr-admin-dashboard/components/FilterToolbar.jsx:109-185 | setting the custom start or end date never changes whether the filters are active |
| FilterToolbar.ChangeAwayFromDefaultActivates | src/pages/hr-admin-dashboard/components/FilterToolbar.jsx:92-114 | setting a main key away from its default makes the filters active |
| FilterToolbar.Toolbar.constructor | src/pages/hr-admin-dashboard/components/FilterToolbar.jsx:11-16 | today, all departments, all statuses, empty search; nothing handed on yet |
| FilterToolbar.Toolbar.ResetShown | src/pages/hr-admin-dashboard/components/FilterToolbar.jsx:124-191 | the reset button and the summary are shown iff the filters are active |
| FilterToolbar.Toolbar.Change | src/pages/hr-admin-dashboard/components/FilterToolbar.jsx:92-96 | only that key changes, and the new record is handed on at once |
| FilterToolbar.Toolbar.Reset | src/pages/hr-admin-dashboard/components/FilterToolbar.jsx:98-107 | the record returns to the defaults, which are inactive, and they are handed on |
| FilterToolbar.SearchThenReset | src/pages/hr-admin-dashboard/components/FilterToolbar.jsx:92-107 | a search then a reset hands on the searched record, then the defaults, and ends inactive |
| AttendanceHistory.FilterRecords | src/pages/personal-attendance-history/index.jsx:145-173 | the three passes, each run only when its filter is active, leave exactly Matching of the records |
| AttendanceHistory.MatchingIsIntersection | src/pages/personal-attendance-history/index.jsx:148-170 | the result keeps the records' order; a record is in it iff it passes every active filter (both dates inclusive, exact status, lower-cased search on date or status), each as often as among the records |
| AttendanceHistory.NoFilterKeepsAll | src/pages/personal-attendance-history/index.jsx:149-164 | with no dates, status '' or 'all' and no search term, every record is kept in order |
| AttendanceHistory.SingleDayRange | src/pages/personal-attendance-history/index.jsx:150-155 | a range from a day to the same day keeps the records dated that day, both bounds included |
| AttendanceHistory.LateRecords | src/pages/personal-attendance-history/index.jsx:29-91 | filtering the page's six records on 'late' finds only the 5 January record |
| AttendanceHistory.HistoryPage.constructor | src/pages/personal-attendance-history/index.jsx:14-20 | French, no records listed, not clocked in, not loading, not exporting |
| AttendanceHistory.HistoryPage.Mount | src/pages/personal-attendance-history/index.jsx:129-133 | the saved language or French, and all six records listed |
| AttendanceHistory.HistoryPage.FiltersChange | src/pages/personal-attendance-history/index.jsx:145-173 | the listed records become Matching of all six records, not of the previous list |
| AttendanceHistory.HistoryPage.ClockIn | src/pages/personal-attendance-history/index.jsx:187-192 | clocked in and no longer loading |
| AttendanceHistory.HistoryPage.ClockOut | src/pages/personal-attendance-history/index.jsx:194-199 | clocked out and no longer loading |
| AttendanceHistory.HistoryPage.Export | src/pages/personal-attendance-history/index.jsx:175-185 | the exporting flag is lowered again once the export finishes |
| AttendanceHistory.HistoryPage.ChangeLanguage | src/pages/personal-attendance-history/index.jsx:135-138 | the language is set and saved under 'language'; no other stored key changes |
| AttendanceHistory.HistoryPage.Logout | src/pages/personal-attendance-history/index.jsx:140-143 | only the 'language' key is removed, and the login page opens |
| AttendanceFilters.ResetShowsEverything | src/pages/personal-attendance-history/components/AttendanceFilters.jsx:146-155 | the reset record keeps every record the page filters |
| AttendanceFilters.FilterPanel.constructor | src/pages/personal-attendance-history/components/AttendanceFilters.jsx:11-16 | empty dates and search term, status "all", nothing handed on yet |
| AttendanceFilters.FilterPanel.Change | src/pages/personal-attendance-history/components/AttendanceFilters.jsx:126-129 | only the edited key changes, and nothing is handed to the page |
| AttendanceFilters.FilterPanel.QuickRange | src/pages/personal-attendance-history/components/AttendanceFilters.jsx:131-140 | the range's dates replace start and end, status and search term are kept, and the new record is handed on |
| AttendanceFilters.FilterPanel.Apply | src/pages/personal-attendance-history/components/AttendanceFilters.jsx:142-144 | the current record is handed on unchanged |
| AttendanceFilters.FilterPanel.Reset | src/pages/personal-attendance-history/components/AttendanceFilters.jsx:146-155 | the record returns to the reset record, which is also handed on |
| AttendanceFilters.EditThenApply | src/pages/personal-attendance-history/components/AttendanceFilters.jsx:126-144 | editing hands nothing to the page; applying then hands on both edits at once |
| AttendanceTimeline.LabelsFor | src/pages/personal-attendance-history/components/AttendanceTimeline.jsx:8-41 | English labels iff the language is 'en', French for every other language |
| AttendanceTimeline.JsRem | src/pages/personal-attendance-history/components/AttendanceTimeline.jsx:91 | JavaScript's remainder: Euclidean for a non-negative dividend, between -d and 0 for a negative one |
| AttendanceTimeline.DurationSplits | src/pages/personal-attendance-history/components/AttendanceTimeline.jsx:88-93 | for a non-negative duration the text is the whole hours and the remaining minutes, below 60 and giving back the duration; the zero branch agrees with the general one |
| AttendanceTimeline.DurationReadsBack | src/pages/personal-attendance-history/components/AttendanceTimeline.jsx:88-93 | the digits before the hours label and those after it and the space give back the duration |
| AttendanceTimeline.FormatTime | src/pages/personal-attendance-history/components/AttendanceTimeline.jsx:83-86 | a missing or empty time is "--:--"; any other time is its first five characters, or all of it when shorter |
| AttendanceTimeline.FormatTimeDropsSeconds | src/pages/personal-attendance-history/components/AttendanceTimeline.jsx:83-86 | "HH:MM:SS" is shown as "HH:MM" |
| AttendanceTimeline.StatusConfigOf | src/pages/personal-attendance-history/components/AttendanceTimeline.jsx:43-81 | present, absent, late and holiday get their label, colour and icon; every other status, and only those, is labelled with itself, muted, with the circle |
| AttendanceTimeline.StatusIconsDistinct | src/pages/personal-attendance-history/components/AttendanceTimeline.jsx:43-81 | the four known statuses have four different icons, none of them the fallback circle |
| AttendanceTimeline.TruthySlot | src/pages/personal-attendance-history/components/AttendanceTimeline.jsx:155-193 | as written, a zero value renders as the stray text "0", and any other value renders as its duration block |
| AttendanceTimeline.PositiveSlot | src/pages/personal-attendance-history/components/AttendanceTimeline.jsx:207 | the overtime block appears iff the overtime is positive and never leaks a "0" |
| AttendanceTimeline.CardOf | src/pages/personal-attendance-history/components/AttendanceTimeline.jsx:130-222 | the card carries the status's configuration; time details appear iff the status is neither absent nor holiday, with both times formatted, a break block iff the break is non-zero and an overtime block iff it is positive |
| AttendanceTimeline.Render | src/pages/personal-attendance-history/components/AttendanceTimeline.jsx:106-130 | the no-records panel iff the list is empty, otherwise one card per record in order |
| AttendanceTimeline.AbsentDayShowsZero | src/pages/personal-attendance-history/components/AttendanceTimeline.jsx:155-167 | as written, the page's absent day renders a stray "0" in place of its total and no time details |
| AttendanceTimeline.GuardedSlot | src/pages/personal-attendance-history/components/AttendanceTimeline.jsx:155-193 | with the fix, the block appears iff the value is positive, and "0" is never rendered |
| AttendanceTimeline.CardFixed | src/pages/personal-attendance-history/components/AttendanceTimeline.jsx:130-222 | with the fix, the status configuration and details rule are kept, the total appears iff positive, and no slot renders "0" |
| AttendanceTimeline.RenderFixed | src/pages/personal-attendance-history/components/AttendanceTimeline.jsx:106-130 | with the fix, the panel iff the list is empty, otherwise one guarded card per record, none of which renders "0" |
| AttendanceTimeline.FixedCardAgrees | src/pages/personal-attendance-history/components/AttendanceTimeline.jsx:155-193 | for a positive total and break, the guarded card equals the card as written |
| AttendanceCalendar.MonthGrid | src/pages/personal-attendance-history/components/AttendanceCalendar.jsx:62-83 | the grid holds one cell per blank before the month's first weekday plus one per day of the month |
| AttendanceCalendar.GetDaysInMonth | src/pages/personal-attendance-history/components/AttendanceCalendar.jsx:62-83 | the two loops build exactly MonthGrid: the blanks first, then the days 1 to the month's length in order |
| AttendanceCalendar.GridColumnsAreWeekdays | src/pages/personal-attendance-history/components/AttendanceCalendar.jsx:62-83 | a cell is blank iff it comes before the first weekday; every other cell is a valid day of that month whose weekday is its column, Sunday first |
| AttendanceCalendar.GridHoldsEveryDay | src/pages/personal-attendance-history/components/AttendanceCalendar.jsx:78-80 | each day of the month is in the grid exactly once, at the cell after the blanks and the days before it |
| AttendanceCalendar.AttendanceFor | src/pages/personal-attendance-history/components/AttendanceCalendar.jsx:42-45 | none iff no record carries the day's YYYY-MM-DD key; otherwise the first record that does |
| AttendanceCalendar.FindByDate | src/pages/personal-attendance-history/components/AttendanceCalendar.jsx:44 | none iff no record has that date string; otherwise the first record that has it |
| AttendanceCalendar.MockRecordsOnTheCalendar | src/pages/personal-attendance-history/index.jsx:29-37 | the page's record of 6 January 2025 is found on that day, and 7 January has no record |
| AttendanceCalendar.StatusColor | src/pages/personal-attendance-history/components/AttendanceCalendar.jsx:47-60 | present, absent, late and holiday get their own colour; every other status, and only those, gets the muted class |
| AttendanceCalendar.Dot | src/pages/personal-attendance-history/components/AttendanceCalendar.jsx:159-176 | a day shows a dot iff some record is dated that day, coloured by the status of the first such record |
| AttendanceCalendar.SelectedIffSameDay | src/pages/personal-attendance-history/components/AttendanceCalendar.jsx:101-106 | a blank cell or a missing selection is never selected; two days match iff they are the same day |
| AttendanceCalendar.TodayMarkedOnce | src/pages/personal-attendance-history/components/AttendanceCalendar.jsx:93-99 | in a month's grid, a cell is marked as today iff today falls in that month and it is today's cell |
| AttendanceCalendar.SetMonth | src/pages/personal-attendance-history/components/AttendanceCalendar.jsx:87-88 | setMonth gives a valid day: the same day in the target month when it fits, otherwise the overflow into the following month |
| AttendanceCalendar.NavigateEarlyInMonth | src/pages/personal-attendance-history/components/AttendanceCalendar.jsx:85-91 | as written, from a day up to the 28th the calendar moves exactly by the given number of months |
| AttendanceCalendar.NavigateSkipsFebruary | src/pages/personal-attendance-history/components/AttendanceCalendar.jsx:85-91 | as written, "next month" from 31 January 2025 lands on 3 March, two months on |
| AttendanceCalendar.Navigate | src/pages/personal-attendance-history/components/AttendanceCalendar.jsx:85-91 | with the fix, the shown month moves by exactly the given number of months, on the 1st |
| AttendanceCalendar.NavigateThereAndBack | src/pages/personal-attendance-history/components/AttendanceCalendar.jsx:121-137 | going forward and then back again returns to the month and year shown before |
| AttendanceCalendar.Calendar.constructor | src/pages/personal-attendance-history/components/AttendanceCalendar.jsx:11 | the calendar starts on today |
| AttendanceCalendar.Calendar.NavigateMonth | src/pages/personal-attendance-history/components/AttendanceCalendar.jsx:85-91 | as written, the arrows apply setMonth to the shown day, keeping the day and overflowing; from a day up to the 28th the shown month moves by exactly the direction |
| AttendanceCalendar.Calendar.NavigateMonthFixed | src/pages/personal-attendance-history/components/AttendanceCalendar.jsx:121-137 | with the fix (see Findings), the arrows move to the 1st of the month exactly the direction away, from any day |
| AttendanceCalendar.Calendar.GoToToday | src/pages/personal-attendance-history/components/AttendanceCalendar.jsx:129 | the shown day becomes today |
| AttendanceCalendar.Calendar.Days | src/pages/personal-attendance-history/components/AttendanceCalendar.jsx:108 | the grid shown is MonthGrid of the current month |
| ExportControls.ExportIcon | src/pages/personal-attendance-history/components/ExportControls.jsx:75-86 | pdf, csv and excel get their own icon, and every other format, and only those, gets the download icon |
| ExportControls.QuickButtonIcons | src/pages/personal-attendance-history/components/ExportControls.jsx:161-189 | each quick button's own icon is the icon of the format it picks |
| ExportControls.Controls.constructor | src/pages/personal-attendance-history/components/ExportControls.jsx:11-12 | format pdf, range current, nothing exported yet |
| ExportControls.Controls.SelectFormat | src/pages/personal-attendance-history/components/ExportControls.jsx:103 | the chosen format is set |
| ExportControls.Controls.SelectRange | src/pages/personal-attendance-history/components/ExportControls.jsx:113 | the chosen range is set |
| ExportControls.Controls.HandleExport | src/pages/personal-attendance-history/components/ExportControls.jsx:61-73 | one request with the held format and range is handed to onExport; a failure is caught and changes nothing |
| ExportControls.Controls.ClickExport | src/pages/personal-attendance-history/components/ExportControls.jsx:119-122 | while exporting the button does nothing; otherwise it hands on one request with the held format and range |
| ExportControls.Controls.QuickExportAsWritten | src/pages/personal-attendance-history/components/ExportControls.jsx:156-188 | as written, the request carries the previous format and range, while the selects show the button's |
| ExportControls.PdfButtonExportsCsvAsWritten | src/pages/personal-attendance-history/components/ExportControls.jsx:103-160 | as written, after choosing CSV, "PDF du mois" exports CSV of the current month while PDF is shown |
| ExportControls.Controls.QuickExport | src/pages/personal-attendance-history/components/ExportControls.jsx:156-188 | with the fix, the request carries the button's format and range, which the selects also show |
| ExportControls.QuickButtonsExportTheirChoice | src/pages/personal-attendance-history/components/ExportControls.jsx:156-188 | with the fix, the three quick buttons export PDF of the current month, CSV of three months and Excel of the year, whatever was chosen before |
| AttendanceReports.ReportFor | src/pages/attendance-reports/index.jsx:57-69 | the report carries the submitted filters and the generation time |
| AttendanceReports.Filename | src/pages/attendance-reports/index.jsx:87 | the file name is as long as the prefix, the ten-character date, the dot and the format together |
| AttendanceReports.FilenameReadsBack | src/pages/attendance-reports/index.jsx:87 | the name starts with "rapport-presence-", followed by the YYYY-MM-DD key that parses back to the export day, a dot, and the format |
| AttendanceReports.FilenamesDistinct | src/pages/attendance-reports/index.jsx:87 | two exports share a file name only if they are on the same day in the same format |
| AttendanceReports.ReportsPage.constructor | src/pages/attendance-reports/index.jsx:15-19 | French, sidebar expanded, not generating, not exporting, no report, no pending timers |
| AttendanceReports.ReportsPage.ResultsShown | src/pages/attendance-reports/index.jsx:180-188 | the charts and export options are shown iff a report is stored and no generation is running |
| AttendanceReports.ReportsPage.Mount | src/pages/attendance-reports/index.jsx:27-30 | the saved preferredLanguage, or French when it is missing or empty |
| AttendanceReports.ReportsPage.ChangeLanguage | src/pages/attendance-reports/index.jsx:33-36 | the language is set and saved under preferredLanguage, with no other key changed |
| AttendanceReports.ReportsPage.Logout | src/pages/attendance-reports/index.jsx:39-43 | exactly userToken and userRole are removed, and the login page opens |
| AttendanceReports.ReportsPage.ToggleSidebar | src/pages/attendance-reports/index.jsx:46-48 | the collapsed flag flips |
| AttendanceReports.ReportsPage.GenerateReport | src/pages/attendance-reports/index.jsx:51-55 | generation starts, and its timer is queued with the filters |
| AttendanceReports.ReportsPage.GenerationDone | src/pages/attendance-reports/index.jsx:55-73 | the oldest pending filters' report is stored and generation ends |
| AttendanceReports.ReportsPage.ClearReport | src/pages/attendance-reports/index.jsx:76-78 | the stored report is dropped |
| AttendanceReports.ReportsPage.Export | src/pages/attendance-reports/index.jsx:81-85 | exporting starts, and its timer is queued with the configuration |
| AttendanceReports.ReportsPage.ExportDone | src/pages/attendance-reports/index.jsx:85-100 | the file of the oldest pending configuration is offered under its dated name, and exporting ends |
| AttendanceReports.GenerateThenClear | src/pages/attendance-reports/index.jsx:51-78 | the page's own flags: the results are flagged hidden while generating, flagged shown with the submitted filters once the timer fires, and hidden again after clearing (the preview's crash on the stored object is under Left out) |
| AttendanceReports.ExportPdf | src/pages/attendance-reports/index.jsx:81-100 | a PDF export on 6 August 2025 offers "rapport-presence-2025-08-06.pdf" |
| ReportFilters.Apply | src/pages/attendance-reports/components/ReportFilters.jsx:96-101 | an edit replaces exactly the one field it names and leaves the rest of the record as it was |
| ReportFilters.EditsAreIndependent | src/pages/attendance-reports/components/ReportFilters.jsx:96-101 | edits of different fields commute, and a later edit of the same field overrides an earlier one |
| ReportFilters.ApplyAllSnoc | src/pages/attendance-reports/components/ReportFilters.jsx:96-101 | applying a run of edits and then one more is the same as applying the longer run |
| ReportFilters.FilterForm.constructor | src/pages/attendance-reports/components/ReportFilters.jsx:14-23 | the form starts from the default record, with nothing generated or cleared |
| ReportFilters.FilterForm.Change | src/pages/attendance-reports/components/ReportFilters.jsx:96-101 | the record becomes the old record with the edit applied |
| ReportFilters.FilterForm.Generate | src/pages/attendance-reports/components/ReportFilters.jsx:103-105 | the current record is handed on unchanged |
| ReportFilters.FilterForm.ClickClear | src/pages/attendance-reports/components/ReportFilters.jsx:107-118 | while generating the click does nothing; otherwise the record returns to the defaults and the page is told once |
| ReportFilters.EditClearGenerate | src/pages/attendance-reports/components/ReportFilters.jsx:96-118 | whatever was edited, clearing while idle and then generating hands on exactly the default record |
| ReportPreview.HandleSort | src/pages/attendance-reports/components/ReportPreview.jsx:130-136 | a click always sorts by the clicked column, descending iff that column was already sorted ascending |
| ReportPreview.ClicksAlternate | src/pages/attendance-reports/components/ReportPreview.jsx:130-136 | repeated clicks on one column go ascending, descending, ascending |
| ReportPreview.SortIcon | src/pages/attendance-reports/components/ReportPreview.jsx:138-145 | the neutral icon iff the column is not the sort key; up or down by the direction otherwise |
| ReportPreview.OneColumnShowsDirection | src/pages/attendance-reports/components/ReportPreview.jsx:130-145 | after a click only the clicked column shows a direction |
| ReportPreview.StatusBadge | src/pages/attendance-reports/components/ReportPreview.jsx:114-128 | absent, late and earlyLeave get their own badges; every other status reads as present |
| ReportPreview.SortedData | src/pages/attendance-reports/components/ReportPreview.jsx:147-162 | with no sort key the data itself; otherwise a permutation of it ordered by the key's text, in the chosen direction |
| ReportPreview.Render | src/pages/attendance-reports/components/ReportPreview.jsx:112 | the loading panel iff loading; the no-data panel iff idle without report data; otherwise the report's rows, unchanged when unsorted and ordered by the key when sorted; this is the evidently intended list form (the stored object crashes, see Left out) |
| ReportPreview.Preview.Sort | src/pages/attendance-reports/components/ReportPreview.jsx:130-136 | the sort configuration becomes the one the click produces |
| ExportOptions.FormatChangeIsLocal | src/pages/attendance-reports/components/ExportOptions.jsx:69-74 | choosing a format changes the format alone, and choosing it again changes nothing |
| ExportOptions.FormatIcon | src/pages/attendance-reports/components/ExportOptions.jsx:80-89 | the spreadsheet icon iff CSV or Excel, the document iff PDF, code iff JSON, and the plain file for every other format |
| ExportOptions.Options.constructor | src/pages/attendance-reports/components/ExportOptions.jsx:12-19 | CSV, standard template, no charts, filters included, not recurring, GDPR compliant; nothing exported yet |
| ExportOptions.Options.Change | src/pages/attendance-reports/components/ExportOptions.jsx:69-74 | the configuration becomes the previous one with the edited key replaced |
| ExportOptions.Options.Export | src/pages/attendance-reports/components/ExportOptions.jsx:76-78 | the current configuration is handed on unchanged |
| ExportOptions.ChoosePdfAndExport | src/pages/attendance-reports/components/ExportOptions.jsx:69-78 | choosing PDF and exporting hands on the initial configuration with PDF, under the document icon |
| Sidebar.LabelsFor | src/components/ui/RoleBasedSidebar.jsx:16-41 | English labels iff the language is "en", French for every other language |
| Sidebar.DashboardPath | src/components/ui/RoleBasedSidebar.jsx:45-49 | the dashboard item opens the HR dashboard iff the role is exactly admin or HR, the employee dashboard otherwise |
| Sidebar.NavigationItems | src/components/ui/RoleBasedSidebar.jsx:78-79 | as written, every item shown lists the role, with the same case, among its roles |
| Sidebar.NavigationByRole | src/components/ui/RoleBasedSidebar.jsx:43-80 | as written, an employee sees the first two items, admin and HR see all four, any other spelling sees none |
| Sidebar.NavigationIdsByRole | src/components/ui/RoleBasedSidebar.jsx:43-80 | as written, an employee sees dashboard and attendance with the employee dashboard; admin and HR see all four items with the HR dashboard |
| Sidebar.PageRolesSeeNothingAsWritten | src/components/ui/RoleBasedSidebar.jsx:78-79 | as written, the roles "hr" and "Employee" that pages pass see an empty menu |
| Sidebar.LowerAll | src/components/ui/RoleBasedSidebar.jsx:79 | every role of the list is lower-cased, in place and in order |
| Sidebar.DashboardPathFixed | src/components/ui/RoleBasedSidebar.jsx:45-49 | the HR dashboard iff the role is admin or hr in any case |
| Sidebar.NavigationItemsFixed | src/components/ui/RoleBasedSidebar.jsx:78-79 | every item shown lists the role, ignoring case, among its roles |
| Sidebar.NavigationByRoleFixed | src/components/ui/RoleBasedSidebar.jsx:43-80 | ignoring case, employees see the first two items, admin and HR all four, any other role none |
| Sidebar.PageRolesSeeTheirItemsFixed | src/components/ui/RoleBasedSidebar.jsx:43-80 | with case ignored, "hr" sees all four items and "Employee" sees dashboard and attendance |
| Sidebar.FixedAgreesOnExactRoles | src/components/ui/RoleBasedSidebar.jsx:43-80 | on the exact roles the code lists, the corrected menu is the menu as written |
| Sidebar.AtMostOneActive | src/components/ui/RoleBasedSidebar.jsx:84-86 | the item targets differ, so at most one menu item is highlighted for any role and location |
| Sidebar.SidebarState.constructor | src/components/ui/RoleBasedSidebar.jsx:12 | the mobile menu starts closed, with no navigation |
| Sidebar.SidebarState.HandleNavigation | src/components/ui/RoleBasedSidebar.jsx:88-91 | the route is opened and the mobile menu closed |
| Sidebar.SidebarState.MobileToggle | src/components/ui/RoleBasedSidebar.jsx:93-95 | the toggle flips the mobile menu |
| Sidebar.SidebarState.CloseMenu | src/components/ui/RoleBasedSidebar.jsx:167-200 | the overlay and the close button close the mobile menu |
| Sidebar.SidebarState.Resize | src/components/ui/RoleBasedSidebar.jsx:97-107 | a window at least 768 pixels wide closes the mobile menu; a narrower one leaves it as it was |
| Sidebar.OpenThenNavigate | src/components/ui/RoleBasedSidebar.jsx:88-95 | opening the menu and choosing an item navigates there once and leaves the menu closed |
| Breadcrumbs.LabelsFor | src/components/ui/NavigationBreadcrumbs.jsx:13-36 | English labels iff the language is 'en', French for every other language |
| Breadcrumbs.RouteMap | src/components/ui/NavigationBreadcrumbs.jsx:38-46 | the route map has seven distinct paths |
| Breadcrumbs.SplitSlash | src/components/ui/NavigationBreadcrumbs.jsx:49 | split('/') gives at least one piece, and no piece contains a slash |
| Breadcrumbs.SplitThenJoin | src/components/ui/NavigationBreadcrumbs.jsx:49 | joining the pieces of split('/') with slashes gives back the string |
| Breadcrumbs.JoinThenSplit | src/components/ui/NavigationBreadcrumbs.jsx:49 | splitting a slash-join of one or more slash-free pieces gives back the pieces |
| Breadcrumbs.Segments | src/components/ui/NavigationBreadcrumbs.jsx:49 | the segments kept by filter(segment => segment) are non-empty and slash-free |
| Breadcrumbs.KeptPieces | src/components/ui/NavigationBreadcrumbs.jsx:49 | every piece kept by the filter is a non-empty, slash-free piece |
| Breadcrumbs.JoinPath | src/components/ui/NavigationBreadcrumbs.jsx:63-65 | the path built from the segments is at least one character per segment long |
| Breadcrumbs.JoinPathCons | src/components/ui/NavigationBreadcrumbs.jsx:63-65 | building the path from a first segment followed by the rest is "/", the segment, then the rest's path |
| Breadcrumbs.SplitAfterHead | src/components/ui/NavigationBreadcrumbs.jsx:49-65 | splitting a head followed by a built path gives the head and then the segments |
| Breadcrumbs.SegmentsOfJoinPath | src/components/ui/NavigationBreadcrumbs.jsx:49-65 | for non-empty slash-free segments, the path built by the loop splits back into those same segments |
| Breadcrumbs.RootHasNoSegments | src/components/ui/NavigationBreadcrumbs.jsx:49 | "/" has no segments |
| Breadcrumbs.JoinPathGrows | src/components/ui/NavigationBreadcrumbs.jsx:63-65 | the path after more segments is strictly longer and extends the shorter path |
| Breadcrumbs.HomePath | src/components/ui/NavigationBreadcrumbs.jsx:54 | as written, the home crumb leads to the HR dashboard iff the role is exactly 'admin' or 'hr', otherwise to the employee dashboard |
| Breadcrumbs.BuildTrail | src/components/ui/NavigationBreadcrumbs.jsx:48-79 | the loop builds exactly Trail: a home crumb off the root, then one crumb per prefix path found in the route map |
| Breadcrumbs.AddSegmentCrumbs | src/components/ui/NavigationBreadcrumbs.jsx:62-76 | the loop pushes onto the crumbs given exactly SegmentCrumbs of all the segments: the crumb of every prefix path found in the route map, in order |
| Breadcrumbs.GenerateBreadcrumbs | src/components/ui/NavigationBreadcrumbs.jsx:48-79 | with the home-crumb fix (see Findings), the trail whose home crumb follows the sidebar's role test |
| Breadcrumbs.SegmentCrumbsFacts | src/components/ui/NavigationBreadcrumbs.jsx:63-76 | every crumb is a known route with that route's label and icon, at a prefix path of the pathname, marked last iff it is the whole path; paths strictly lengthen along the trail, each extending the one before; every known prefix path gets a crumb |
| Breadcrumbs.TrailOfPath | src/components/ui/NavigationBreadcrumbs.jsx:53-76 | off the root, the home crumb comes first, then the segment crumbs; when the whole path is known the last crumb is it and is marked last; otherwise no crumb is marked last |
| Breadcrumbs.RootShowsNothing | src/components/ui/NavigationBreadcrumbs.jsx:53-90 | at "/" the trail is empty and nothing is shown |
| Breadcrumbs.OneRouteIsVisible | src/components/ui/NavigationBreadcrumbs.jsx:53-90 | on any single known route other than the login page, the trail is the home crumb and the route's crumb, and it is shown |
| Breadcrumbs.LoginShowsNothing | src/components/ui/NavigationBreadcrumbs.jsx:88-90 | the login page never shows a trail |
| Breadcrumbs.HomeDisagreesWithSidebar | src/components/ui/NavigationBreadcrumbs.jsx:54 | as written, role 'HR' gets the employee home here but the HR dashboard in the sidebar, and 'hr' the reverse |
| Breadcrumbs.ReportsPageHomeAsWritten | src/components/ui/NavigationBreadcrumbs.jsx:54 | as written, the reports page's trail for role 'HR' starts from the employee dashboard |
| Breadcrumbs.HomePathFixed | src/components/ui/NavigationBreadcrumbs.jsx:54 | with the fix, the home crumb leads to the HR dashboard iff the lower-cased role is 'admin' or 'hr' |
| Breadcrumbs.HomeAgreesWithSidebarFixed | src/components/ui/NavigationBreadcrumbs.jsx:54 | with the fix, the home crumb always matches the sidebar's corrected dashboard, and matches as written on 'admin', 'hr' and 'employee' |
| Breadcrumbs.ReportsPageHomeFixed | src/components/ui/NavigationBreadcrumbs.jsx:54 | with the fix, the reports page's trail for 'HR' starts from the HR dashboard, as the sidebar does, followed by the reports crumb marked last |
| Breadcrumbs.ReportsTrail | src/components/ui/NavigationBreadcrumbs.jsx:53-76 | for /attendance-reports in the route map, the trail is the home crumb and the reports crumb marked last |
| QuickActionFab.PrimaryAction | src/components/ui/QuickActionFab.jsx:63-69 | a tap clocks out iff the employee is clocked in, and clocks in otherwise |
| QuickActionFab.PrimaryConfig | src/components/ui/QuickActionFab.jsx:71-96 | the processing look iff loading; otherwise the clock-out look iff clocked in, the clock-in look iff not |
| QuickActionFab.EnabledButtonShowsItsAction | src/components/ui/QuickActionFab.jsx:71-110 | the spinner shows exactly while loading (when the button is disabled); an enabled button's icon names the call a tap makes |
| QuickActionFab.Fab.constructor | src/components/ui/QuickActionFab.jsx:13-56 | the button starts visible and listening to scrolls iff the role is exactly employee and the screen is narrower than 768 pixels |
| QuickActionFab.Fab.RunEffect | src/components/ui/QuickActionFab.jsx:47-53 | the effect resets the visibility to whether the button should show, and attaches the listener only then |
| QuickActionFab.Fab.HandleScroll | src/components/ui/QuickActionFab.jsx:35-45 | after a scroll the button is visible iff scrolling up or above 100 pixels, and the last position becomes the new one |
| QuickActionFab.Fab.ScrollAsWritten | src/components/ui/QuickActionFab.jsx:34-56 | as written, a scroll to a new position re-runs the effect, so the visibility ends as whether the button should show |
| QuickActionFab.ScrollDownAsWritten | src/components/ui/QuickActionFab.jsx:34-56 | as written, scrolling an employee's small screen down past the top zone leaves the button visible |
| QuickActionFab.ScrollDownCorrected | src/components/ui/QuickActionFab.jsx:35-45 | with the handler alone deciding, scrolling down hides the button and scrolling back up shows it |
| QuickActionFab.ScrollHidesIffDownBelowTop | src/components/ui/QuickActionFab.jsx:38-42 | a handled scroll hides the button exactly when it moves down, or stays, at 100 pixels or below |

## Left out

- Service calls (`UserService`, `AttendanceService`, the employee dashboard's fetches) are not modelled: their results are parameters, and the code that performs them is not part of this model.
- Routing (`Routes.jsx`) is not part of this model. Navigation is recorded as the path requested.
- Browser facilities are not modelled: `getUserMedia`, `<video>` and `<canvas>` capture, file reading, `window.confirm`, blob downloads and event listeners other than the scroll and resize rules. Their outcomes are parameters.
- `setTimeout` and `await` are collapsed to their settled state. The exceptions are report generation and report export, where each pending timer is kept as a queue entry and its callback is a separate method.
- Locale formatting (`toLocaleDateString`, `toLocaleTimeString`) is not modelled. A formatted string is taken as a parameter.
- Floating point is modelled as exact `real` arithmetic. `parseFloat` is modelled as leading white space, an optional sign and a decimal with an optional fraction. Exponents, `Infinity` and rounding to double precision are left out.
- Charts (Recharts) and the rest of the JSX layout, CSS classes and icons are left out, except where a class or icon is the operation's result.
- Only ASCII letters are lower-cased. JavaScript's `toLowerCase` also folds other letters.
- DepartmentChart.ChartData: lists the departments in the order of first appearance. `Object.entries` (`DepartmentChart.jsx:28`) lists keys that are array indices, such as "2", first and in ascending numeric order, and only then the other keys in insertion order. The two orders differ only when a department name is an array index, and then only in the order of the chart's entries, not in their counts.
- Sorting.StrLt: strings are sequences of Unicode scalar values here, while JavaScript's `<` compares UTF-16 code units. The two orders differ when a character above U+FFFF is compared with one from U+E000 to U+FFFF, which JavaScript puts after it and this model puts before it.
- `toISOString` works in UTC, so in time zones east of UTC it can name the previous day. Days here are calendar days, with no time zone.
- Years outside 0 to 9999 are left out of the date-key round trip.
- The translation tables are kept only where a label is an operation's result or its distinctness matters.
- Components that only display their props without logic are left out.
- The dashboard's timer fires once a minute (`employee-dashboard/index.jsx:67`) and computes the elapsed time from `new Date(clockInTime)`. `EmployeeDashboard.Tick` takes the elapsed time as a parameter instead, and so does not capture the following. After a clock-in in the same session, `clockInTime` holds the `HH:MM` text of `toLocaleTimeString` (index.jsx:93-99). `new Date` of that text is an invalid date, so each tick would write "NaNh NaNm" to the state and to the stored `totalHours`. Only after a reload, when the saved ISO time is restored (index.jsx:43-48), is a real elapsed time computed. This reading of the code has not been executed. The ticked text is never rendered (see `EmployeeDashboard.ProgressOfFormatted`).
- `Button.jsx` is not part of this model.
- The reports page stores a plain report object after every generation (`attendance-reports/index.jsx:57-70`), but the preview treats `reportData` as an array. With no sort key it returns the object as `sortedData` (`ReportPreview.jsx:148`), and `sortedData?.map` (`ReportPreview.jsx:266`) then throws a TypeError. With a sort key, spreading the object (`ReportPreview.jsx:150`) throws. The error boundary around the routes (`Routes.jsx:16`) then replaces the page. So the main path of the reports page ends in that error screen, and this model does not capture it. `ReportPreview.Render` models the evidently intended list form.
- AttendanceReports.GenerateThenClear: states the page's own flags, which the user no longer sees once the preview has thrown.
- Export errors that `ExportControls` catches and logs change no state, so they are left out.
- `handleBreadcrumbClick` only navigates, and is modelled as recording the path.
- The sidebar's collapse chevrons and menu icons are left out.
- A bulk action with an unknown action name changes nothing and is modelled as such. Object-prototype keys such as `toString` are treated as unknown keys in every object lookup by key: the status lookups, `ActivityTimeline.ConfigFor`, `ExportOptions.FormatIcon`, the `acc?.[dept] || 0` count in `DepartmentChart.DepartmentCounts` and the `translations?.[currentLanguage]` lookups behind every `LabelsFor`.
- HrRecentActivity.Entries: states only the number of mock entries. Their ages are stated by `HrRecentActivity.EntryLabels`.
- The stability of `Array.prototype.sort` is not stated; no page relies on the order of rows with equal keys.

## Findings

| source | as written | input that shows it | evidently intended | confidence | as-written member | corrected member |
|---|---|---|---|---|---|---|
| src/pages/personal-attendance-history/components/ExportControls.jsx:156-188 | each quick button sets the format and range, then calls `handleExport`, which still reads the previous values | choose CSV in the select, then press "PDF du mois": a CSV of the current month is requested while PDF is shown | the button exports the format and range it is labelled with | high, not executed | ExportControls.PdfButtonExportsCsvAsWritten | ExportControls.QuickButtonsExportTheirChoice |
| src/pages/personal-attendance-history/components/AttendanceCalendar.jsx:85-91 | `setMonth(month + 1)` keeps the day of the month, so a 31st overflows into the month after next | from 31 January 2025, "next month" shows March 2025 | the calendar moves by exactly one month | high, not executed | AttendanceCalendar.NavigateSkipsFebruary | AttendanceCalendar.NavigateThereAndBack |
| src/pages/employee-management/index.jsx:186 | a new employee's id is the list length plus one | from ids 1, 2, 3, delete 1 and add one: id 3 appears twice, and deleting id 3 removes both | every employee has a distinct id | high, not executed | EmployeeManagement.DuplicateIdAfterDelete | EmployeeManagement.AddKeepsIdsUnique |
| src/pages/employee-management/components/EmployeeTable.jsx:223 | the header box is checked when the number selected equals the page's length | select all ten rows of page 1, then open page 2 of ten: its header box is checked with none of its rows selected | checked iff every row of the page is selected | high, not executed | EmployeeTable.HeaderCheckedWithNothingSelected | EmployeeTable.SelectAllChecksHeader |
| src/components/ui/RoleBasedSidebar.jsx:78-79 | item roles are matched case-sensitively against 'employee', 'admin', 'HR' | the role "hr" (HR dashboard, employee management) or "Employee" (personal history): the menu is empty | roles compared without regard to case | medium, not executed | Sidebar.PageRolesSeeNothingAsWritten | Sidebar.NavigationByRoleFixed |
| src/components/ui/QuickActionFab.jsx:34-56 | the effect depends on `lastScrollY`, so each scroll re-runs it and resets the visibility to `shouldShow` | an employee on a 400-pixel screen scrolls from 0 to 300: the button stays visible | the scroll handler alone decides the visibility | high, not executed | QuickActionFab.ScrollDownAsWritten | QuickActionFab.ScrollDownCorrected |
| src/pages/employee-management/components/AddEmployeeModal.jsx:149-161 | the stream is attached only if the `<video>` is mounted, and the `<video>` is mounted only while the webcam is active | start the webcam from the inactive state with the camera granted: it stays inactive | a granted camera becomes active | high, not executed | AddEmployeeModal.WebcamNeverStarts | AddEmployeeModal.WebcamAfterStartFixed |
| src/pages/employee-management/components/EmployeeTable.jsx:19 | a new search term leaves the current page unchanged | on page 3, search for a term with five matches: the page is empty and the pager is hidden | the page is brought back within the results | high, not executed | EmployeeTable.SearchStrandsPage | EmployeeTable.ClampedPageShowsRows |
| src/pages/personal-attendance-history/components/AttendanceTimeline.jsx:155-167 | `{value && <span>…}` renders the number 0 as the text "0" | the page's absent day, with a total of 0: a stray "0" replaces the total | a zero value renders nothing | high, not executed | AttendanceTimeline.AbsentDayShowsZero | AttendanceTimeline.FixedCardAgrees |
| src/components/ui/NavigationBreadcrumbs.jsx:54 | the home crumb is the HR dashboard for 'admin' or 'hr', while the sidebar uses 'admin' or 'HR' | on the reports page with the role 'HR', the trail starts from the employee dashboard | the home crumb agrees with the sidebar's dashboard, case ignored | medium, not executed | Breadcrumbs.ReportsPageHomeAsWritten | Breadcrumbs.HomeAgreesWithSidebarFixed |
