# School back end: a verified model

The repository is the back end of a school: sections and their rosters, classes
attached to sections, enrolments, a timetable, refresh-token sessions, accounts
with an audit log, and the read models (role-scoped lists, the gradebook) on top
of them.  Under the CRUD it is a handful of small transactional protocols on one
shared store.  This project models those protocols and proves what they keep.

Three views of the same behaviour are connected by proof:

- **Step machines.** `Interleaving` lets any number of assign, attach, detach,
  enroll, slot-creation and term-change transactions run statement by statement
  under READ COMMITTED, with row locks held to the end of the transaction, staged
  inserts, unique keys that make a second inserter wait, and aborts at any point;
  one-statement requests (unassign, drop, capacity and class updates, period and
  slot changes) land between any two statements.  `Sessions` does the same for
  login, refresh and logout, `Admins` for account updates with the locking count.
- **Request functions.** `Requests`, `Timetable` and `Users` say what one request
  makes of the store, error by error and in the order of the checks, and are run
  in sequence from the empty store.
- **Services as they run.** `RosterService`, `TimetableService`, `UserService` and
  `AuthService` are imperative: fields updated in place, the fan-out loops, flush
  and commit on a session that may fail at any statement (`UnitOfWork`).  Each
  method is proved to answer as the request function does, or to have changed
  nothing.

`Solo` joins the first two: a transaction that runs alone reaches its commit
exactly when the request function accepts the request, and then with that store.

The invariants:

- `Discipline`: what the locks and unique keys give every open transaction; on it
  stand `Coverage` (nobody on a roster is left out of an attached class),
  `Capacity` and `Overflow` (seats), `DoubleBooking` (the timetable, by period id
  and on the clock), `TermUpdates` (which steps break the year rule) and, for runs
  in which no class gets another term behind an assignment that has listed it,
  `Deadlock` (no cycle of waits).  `Cycles` says what a cycle takes in any run.
- `RequestLaws`, `TimetableLaws`, `AccountLaws` and, for the steps of a run,
  `StepLaws`: when a request is refused and why, which rows it changes and which it
  leaves alone, and on whose behalf.
- `RunProperties`: years, where every enrolment row comes from, and the order of
  assign and attach not mattering, one request after another; `Provenance`: where
  the rows come from when requests interleave.
- `Reachability`, `Witnesses` and `TermRaces`: concrete runs that reach each of the
  states in which a rule that holds on a condition fails.
- `Rotation`, `Gradebook`, `Listing`, `Ordering`: the seeded timetable and the
  read models, each against a plain specification.

Identifiers are natural numbers, tokens and hashes too; generated keys and tokens
are parameters required to be fresh, the hash is an injective parameter, the time
is a parameter, and scores are `real`.  Capacities are unbounded integers: they
are only compared with counts.

## Where the code keeps less than its comments suggest

Each of these is a theorem that says when the rule holds (if and only if, the
absence of deadlock apart), with a reachable state in which it does not.

- A section or class may be taken over its capacity by lowering the capacity, and
  (rows from fan-outs aside) in no other way: `Overflow.SectionOverfilledIff`,
  `Overflow.ClassOverfilledIff`; `Witnesses.LoweredSection`, `Witnesses.LoweredClass`.
- The comment at `src/sms/domains/timetable/service.py:176-183` says that the lock
  `attach_class` and slot creation share keeps two classes of one section out of
  one slot.  They share the lock of one class only: a slot creation reads the
  classes it competes with unlocked.  So a class may be attached, or given another
  teacher or room, after it was timetabled, or after an open slot creation has read
  it and before that creation commits.  `DoubleBooking.StepDoubleBooksIff` says
  that these are all the ways; `Witnesses.AttachDoubleBooks`,
  `Witnesses.UpdateDoubleBooks` and `Witnesses.StaleReadDoubleBooks` reach one each.
- `ClassService.update` takes no lock, so the pin on the term can be overtaken by
  an attach: `TermUpdates.YearsBrokenIff`, `TermRaces.StaleTermBreaksYears`.
  Checked again under the lock, the pin would hold: `TermUpdates.RecheckKeepsYears`.
- The fixed order of the row locks does not rule deadlock out: the fan-outs also
  wait for each other's unique keys.  Two assignments of one student in different
  years can have listed the same two classes, if these were detached, moved to the
  other year and attached there in between, and then wait for each other for ever
  (the database aborts one): `TermRaces.AssignmentsDeadlock`, although every class
  is of its section's year.  `Deadlock.NoWaitCycle` excludes it when term changes
  pass their check again and leave listed classes alone; `Cycles.CycleIsExplained`
  shows that a cycle takes a class displaced in this way.
- Neither `unassign` nor `detach_class` takes the section lock, so a fan-out may
  enrol a student who has left, or into a class that was detached, since it made
  its list: `Provenance.InterleavedProvenance`, `Witnesses.LeaverIsEnrolled`.
- The last super admin can be lost when a promotion races with an update that read
  its target earlier: `Admins.LastSuperLostIff`, `Admins.PromotionRaceLosesAll`.  In
  such races an audit entry starts from what was read, not from where the entry
  before it ended: `Admins.EntryOnTrailIff`, `Admins.TrailCanBreak`.
- The check of the admin tier, too, is made on an unlocked reading: an ordinary admin
  may change an account that has been raised since, `Admins.TouchedOnlyIfRaised`,
  `Admins.TierCanBeTouched`, but never raise one, `Admins.RaisedOnlyBySuper`.
- Accounts issued with credentials for a teacher or a student have no entry for
  their creation in the audit log: `Users.CreatedEntryIff`.
- The rotation of the demo data needs no more sections than subjects:
  `Rotation.SeedTimetable` reports a refused booking exactly otherwise.

## Model

| member | source | states |
|---|---|---|
| Coverage.RosterIsEnrolled | src/sms/domains/sections/service.py:212-372 | In every state of every interleaving, unlocked term changes included, a student on a section's roster has an enrolment row in every class attached to that section. |
| Coverage.StepKeepsInv | src/sms/domains/sections/service.py:216-226 | Every step keeps the roster covered and keeps each open fan-out's promise: whoever it must reach is on its list, staged, or already has a row. |
| Coverage.MoveKeepsFan | src/sms/domains/sections/service.py:250-264 | Reading the roster or the classes under the section lock puts everybody due on the list; visiting one never loses anybody. |
| Coverage.CommitCovers | src/sms/domains/sections/service.py:247-265 | Committing a fan-out that kept its promise leaves the roster covered. |
| Coverage.DroppedStaysDropped | src/sms/domains/sections/service.py:345-347 | In every run an enrolment row stays for ever, and one that is no longer ACTIVE is never revived, by a fan-out or otherwise. |
| Discipline.InvAlways | src/sms/domains/sections/service.py:308-313 | In every reachable state: locked rows are as they were read, no two transactions hold one lock or have inserted one key, references lead somewhere, a class about to be attached is of the section's year, and copied years equal the section's. |
| Discipline.MoveKeepsKeysApart | src/sms/domains/sections/service.py:251-264 | What a statement inserts without waiting, no other open transaction has inserted. |
| Discipline.CommitStable | src/sms/domains/sections/service.py:308-312 | A commit changes nothing another open transaction relies on: its locked rows, its staged keys, the lists of its locked section. |
| Capacity.RosterWithinPeak | src/sms/domains/sections/service.py:308-325 | In every interleaving a roster never exceeds some capacity its section has had up to then. |
| Capacity.ActiveWithinPeakPlusFanned | src/sms/domains/enrollments/service.py:65-93 | In every interleaving the ACTIVE rows of a class never exceed some capacity the class has had plus the number of rows that fan-outs inserted into it. |
| Capacity.NeverAttachedWithinPeak | src/sms/domains/enrollments/service.py:69-85 | A class that no state so far shows attached has at most as many ACTIVE rows as some capacity it has had. |
| Capacity.NeverAttachedNeverFanned | src/sms/domains/sections/service.py:338-355 | Nothing is ever fanned into a class that was never attached. |
| Capacity.StepKeepsBounded | src/sms/domains/sections/service.py:323-325 | Every step keeps all rosters and all individual enrolments within the recorded peaks, and keeps a seat free for each transaction that has counted one. |
| Overflow.SectionOverfilledIff | src/sms/domains/sections/service.py:190-193 | A step of any run takes a section over its capacity if and only if it sets the capacity below the present roster. |
| Overflow.ClassOverfilledIff | src/sms/domains/classes/service.py:169-171 | A step of any run takes the individually enrolled ACTIVE rows of a class over its capacity if and only if it sets the capacity below their number. |
| Witnesses.LoweredSection | src/sms/domains/sections/service.py:190-193 | A reachable section of two, holding two, whose capacity is set to one. |
| Witnesses.LoweredClass | src/sms/domains/classes/service.py:169-171 | The same for a class with two students enrolled one by one. |
| DoubleBooking.StepDoubleBooksIff | src/sms/domains/timetable/service.py:133-219 | In any run, from a timetable without double bookings, a step makes one if and only if it commits the attachment of a class one of whose competitors has that section, writes a teacher or named room that a competitor has, or commits a slot one of whose competitors was edited into a clash after the creation had read it. |
| DoubleBooking.AlwaysRead | src/sms/domains/timetable/service.py:137-173 | In every interleaving each open slot creation past its listing has read, or has still to read, every class that competes with it, and no row it read clashes. |
| DoubleBooking.NeverDoubleBooked | src/sms/domains/timetable/service.py:133-219 | If each edit of a timetabled class clashes with no competitor and lands while no slot creation is past its listing at a (day, period) of that class, then in every interleaving no two classes in one (day, period) share a teacher, a named room or a section. |
| DoubleBooking.PinnedRunIsSafe | src/sms/domains/timetable/service.py:109-115 | Runs in which timetabled classes keep teacher, room and section meet that hypothesis. |
| DoubleBooking.IdChecksAreClockChecks | alembic/versions/5a1c9e2f7b04_forbid_overlapping_periods.py:36-46 | With periods disjoint as half-open intervals, the rule by period id holds if and only if the rule by the clock does: different slots of a weekday that share a minute share no teacher, named room or section. |
| DoubleBooking.NeverClashOnTheClock | src/sms/domains/timetable/service.py:71-219 | Under the same hypothesis every run, also with periods created, retimed and deleted, keeps the rule by the clock. |
| DoubleBooking.OverlappingPeriodsBypassIds | alembic/versions/5a1c9e2f7b04_forbid_overlapping_periods.py:36-46 | Without the exclusion constraint the id checks let one teacher be booked twice at the same time. |
| DoubleBooking.StepKeepsInv | src/sms/domains/timetable/service.py:184-205 | Every step with such an edit or none keeps each slot creation's knowledge true: each competing class is still to be read or does not clash now. |
| DoubleBooking.AttachKeepsBookingsIff | src/sms/domains/sections/service.py:228-265 | The commit of an attachment keeps the timetable free of double bookings if and only if no class competing with the attached one is of that section. |
| DoubleBooking.BookKeepsBookingsIff | src/sms/domains/timetable/service.py:197-219 | The commit of a slot creation keeps it so if and only if no competing class was edited into a clash after having been read. |
| DoubleBooking.UpdateKeepsBookingsIff | src/sms/domains/classes/service.py:169-171 | The write of a class's teacher and room keeps it so if and only if no competing class has that teacher or that named room. |
| Witnesses.AttachDoubleBooks | src/sms/domains/sections/service.py:228-265 | A reachable attachment makes a double booking: both classes were timetabled before. |
| Witnesses.UpdateDoubleBooks | src/sms/domains/classes/service.py:169-171 | A reachable update of a teacher makes one. |
| Witnesses.StaleReadDoubleBooks | src/sms/domains/timetable/service.py:135-158 | A reachable slot creation makes one: its competitor was attached after it had been read, when no slot competed with it yet. |
| Deadlock.NoWaitCycle | src/sms/domains/sections/service.py:201-226 | In every state of a run whose term changes pass their check again at the write and touch no class on the list of an open assignment, no chain of waits returns to its start, counting row locks and waits on unique keys. |
| Deadlock.OrderedAlways | src/sms/domains/sections/service.py:236-245 | In such a run attached classes are of their section's year, listed ones too, and what one fan-out has inserted or listed no other has. |
| Deadlock.CycleIsOfFanOuts | src/sms/domains/timetable/service.py:184-193 | In any run whatever, a chain of waits that returns to its start begins with one fan-out waiting for a key of another: row locks alone never close one. |
| Cycles.MeetingIsExplained | src/sms/domains/sections/service.py:338-355 | In any run, two fan-outs have a key in common only if its class, when an assignment among them listed it, was of a foreign year, or has got another term since. |
| Cycles.CycleIsExplained | src/sms/domains/sections/service.py:344-355 | So every chain of waits that returns to its start, in any run, has two neighbours that share such a class. |
| TermRaces.AssignmentsDeadlock | src/sms/domains/classes/service.py:143-171 | A reachable state, with every attached class of its section's year, in which two assignments of one student wait for each other and neither has a step of its own. |
| Deadlock.WaitingRises | src/sms/domains/timetable/service.py:184-193 | In any reachable state a wait that is not between two fan-outs is for a transaction that has come further in the order Section, Class, Period, inserts. |
| Deadlock.SomeoneProceeds | src/sms/domains/enrollments/service.py:69-93 | In such a run, whatever is open, some transaction can run its next statement, commit, or abort because a check of its own fails, and that is a step of the system. |
| Deadlock.FanOutsNeverMeet | src/sms/domains/sections/service.py:344-355 | Fan-outs whose keys are apart never wait for each other. |
| Deadlock.AllCanFinish | src/sms/domains/sections/service.py:201-226 | From every state of such a run the open transactions, however many, can all come to their end by statements, commits and forced aborts of their own. |
| Deadlock.MoveGoesOn | src/sms/domains/sections/service.py:344-355 | Every statement brings its transaction closer to its end in a well-founded measure that the others cannot raise, so no loop runs for ever. |
| Solo.SoloAgrees | src/sms/domains/sections/service.py:304-372 | A transaction that runs alone to its commit leaves exactly the store that the request function gives. |
| Solo.SoloCompletesIff | src/sms/domains/timetable/service.py:175-219 | A transaction running alone can reach its commit if and only if the request function accepts the request, for assign, attach, detach, enroll, slot creation and term change. |
| RunProperties.RunKeepsYears | src/sms/domains/sections/service.py:236-245 | After every sequence of requests each roster row's copied year is its section's year, each attached class is of its section's year, and the roster is covered. |
| RunProperties.OneSectionPerYear | src/sms/domains/sections/service.py:317-334 | A student is on the rosters of at most one section of a year. |
| RunProperties.NoFanOutAcrossYears | src/sms/domains/sections/service.py:236-245 | A row that appears without an individual enrolment is for a student with a seat in the class's own year. |
| RunProperties.EnrolmentProvenance | src/sms/domains/sections/service.py:212-382 | One request after another, a pair has an enrolment row if and only if it was enrolled individually or its student and class were at some moment together through one section. |
| Provenance.InterleavedProvenance | src/sms/domains/sections/service.py:212-382 | In every interleaving a pair has a row if and only if it was enrolled individually, or was together through a section in some committed state, or a fan-out that had found it together while open committed it after student or class had left the section. |
| Provenance.WasFound | src/sms/domains/sections/service.py:250-264 | Whatever a fan-out still has to insert or has inserted, it found in a committed state since it was opened: the student on the roster, or the class attached. |
| Witnesses.LeaverIsEnrolled | src/sms/domains/sections/service.py:374-382 | A run that enrols a student in a class although they were never enrolled individually and never together: the student was unassigned after the attachment had listed the roster. |
| RunProperties.AssignAttachCommute | src/sms/domains/sections/service.py:247-269 | For any store, student, sections and class, assign-then-attach and attach-then-assign end in the same store, whichever of them is refused. |
| RunProperties.AttachTwice | src/sms/domains/sections/service.py:213-215 | Attaching again succeeds and changes nothing. |
| RequestLaws.RefusedIff | src/sms/domains/sections/service.py:304-382 | A request of the sections, enrolments and classes services is accepted if and only if there is no reason against it (missing student, section, class or term, a taken seat or row, no room, a foreign section or year, a class not the caller's, a pinned term), and a refusal gives the first reason in one order of checks. |
| RequestLaws.RosterChanges | src/sms/domains/sections/service.py:327-382 | A seat goes if and only if its student is unassigned from its section, comes if and only if the student is assigned to a section of that year, and no request moves one to another section. |
| RequestLaws.LeavesIff | src/sms/domains/sections/service.py:374-382 | A student leaves the roster of a section if and only if they are unassigned from it; so nobody else ever loses a seat. |
| RequestLaws.EnrolAppears | src/sms/domains/sections/service.py:247-264 | An enrolment row comes, ACTIVE, if and only if it is enrolled individually, or its student is assigned to a section the class is attached to, or its class is attached to a section the student is in; none ever goes. |
| RequestLaws.EnrolChanges | src/sms/domains/enrollments/service.py:173-178 | An enrolment row changes if and only if it is dropped, and then from ACTIVE to DROPPED. |
| RequestLaws.ClassChanges | src/sms/domains/classes/service.py:143-171 | Of a class, attaching and detaching change the section, an update exactly the given fields, to what was given, and no other request anything. |
| RequestLaws.SectionChanges | src/sms/domains/sections/service.py:174-195 | A section keeps its year, and its capacity until it is given another. |
| RequestLaws.OtherChanges | src/sms/domains/sections/service.py:304-372 | No request of these services touches slots or periods or removes a student. |
| RequestLaws.TeachersStayInTheirClasses | src/sms/domains/enrollments/service.py:58-75 | On behalf of a teacher an enrolment row comes or changes only in a class of their own, and none without a linked teacher record. |
| RequestLaws.StudentsDropTheirOwn | src/sms/domains/enrollments/service.py:95-131 | On behalf of a student only rows of their own are dropped. |
| RequestLaws.RunKeepsReferences | src/sms/domains/sections/service.py:304-306 | After every sequence of requests each seat and each enrolment row is of a student that exists, and each row of a class that exists. |
| StepLaws.AlwaysReferenced | src/sms/domains/enrollments/service.py:65-73 | The same in every state of every interleaving, for the rows that open transactions are about to write too. |
| StepLaws.RosterStep | src/sms/domains/sections/service.py:327-336 | In any run a seat goes only by its unassignment, comes only by the commit of an assignment of that student to that section in its year, and never passes to another section. |
| StepLaws.AssignSeats | src/sms/domains/sections/service.py:327-356 | The commit of an assignment seats its student, who had no seat in that year. |
| StepLaws.EnrolStep | src/sms/domains/sections/service.py:250-265 | In any run an enrolment row never goes, comes, ACTIVE, if and only if a commit has inserted it, and changes if and only if it is dropped. |
| StepLaws.ClassesStep | src/sms/domains/classes/service.py:143-171 | In any run a class stays, its section is changed only by the commit of an attachment or a detachment of it, its term only by that of a term change to it, its teacher, room and capacity only by an update to those values. |
| StepLaws.SlotsStep | src/sms/domains/timetable/service.py:207-225 | In any run a slot goes if and only if it is deleted, and comes if and only if its own creation commits. |
| StepLaws.PeriodsStep | src/sms/domains/timetable/service.py:96-106 | In any run a period goes only by its deletion, never from under a slot or an open slot creation, and is stored only as somebody put it. |
| StepLaws.WritesAreRequests | src/sms/domains/sections/service.py:374-382 | An accepted request of one statement is a legal write of the step machine with the same result. |
| StepLaws.TimetableWritesAreRequests | src/sms/domains/timetable/service.py:52-106 | The same for slot deletions and periods. |
| TermUpdates.YearsBrokenIff | src/sms/domains/classes/service.py:143-171 | In any run a step puts an attached class in a foreign year if and only if it commits a term change whose check saw the class unattached and which finds it attached now, to a section of another year than the new term's. |
| TermUpdates.AttachedMeanwhile | src/sms/domains/sections/service.py:247-265 | Then an attachment of that class committed while the change was open. |
| TermRaces.StaleTermBreaksYears | src/sms/domains/classes/service.py:161-171 | A run comes to such a commit. |
| TermUpdates.TermWriteKeepsYearsIff | src/sms/domains/classes/service.py:161-171 | A term write keeps the years right if and only if it is not such a late one: a write checked on an attached class, or landing on an unattached one, never breaks them. |
| TermUpdates.RecheckKeepsYears | src/sms/domains/classes/service.py:153-167 | In every run whose term writes pass the guard again on the row they write, attached classes are of their section's year. |
| RosterService.SectionAssignmentService.Assign | src/sms/domains/sections/service.py:304-372 | The seat and the whole fan-out are committed together as the request function says, or a fault left the committed store as it was; a refused request is refused with the first failing check. |
| RosterService.SectionAssignmentService.Unassign | src/sms/domains/sections/service.py:374-382 | The student's seat in the section goes and nothing else changes; no seat is an error. |
| RosterService.SectionService.AttachClass | src/sms/domains/sections/service.py:212-269 | The attachment and the enrolments of the whole roster are committed together as the request function says, or not at all. |
| RosterService.SectionService.DetachClass | src/sms/domains/sections/service.py:271-286 | Only the class's section is cleared, and only if it was this one; enrolment rows stay. |
| RosterService.EnrollmentService.Enroll | src/sms/domains/enrollments/service.py:65-93 | One ACTIVE row is added when student and class exist, the caller owns the class, there is no row yet and there is room; otherwise the first failing check is the answer and nothing changes. |
| RosterService.EnrollmentService.Drop | src/sms/domains/enrollments/service.py:173-178 | An ACTIVE row the caller may see becomes DROPPED; anything else is an error that changes nothing. |
| RosterService.ClassService.Update | src/sms/domains/classes/service.py:143-171 | Exactly the given fields change; an attached class keeps its term. |
| RosterService.OneMoreKey | src/sms/domains/sections/service.py:251-264 | One turn of a fan-out loop: a key that has a row is skipped with its status untouched, any other gets an ACTIVE row, and nothing else changes. |
| Timetable.BookSucceedsIff | src/sms/domains/timetable/service.py:175-205 | A slot is created if and only if class and period exist, the class is not there already, and every class in that (day, period) exists and shares no teacher, named room or section with it. |
| Timetable.BookKeepsClockRule | src/sms/domains/timetable/service.py:133-219 | A created slot never clashes on the clock with a slot of the same weekday. |
| Timetable.CreateKeepsClockRule | src/sms/domains/timetable/service.py:52-60 | A new period never makes slots clash on the clock. |
| Timetable.RetimeKeepsClockRule | src/sms/domains/timetable/service.py:71-94 | A period that is given new times takes its slots along without a clash on the clock. |
| Timetable.DeleteKeepsClockRule | src/sms/domains/timetable/service.py:96-106 | Deleting an unused period leaves every slot with its period and free of clashes. |
| TimetableLaws.RefusedIff | src/sms/domains/timetable/service.py:133-205 | A timetable request is accepted if and only if there is no reason against it (something missing, taken or in use, times that are no range or overlap, a competing class with the teacher, named room or section); a refusal gives a true reason, the first in the order of the checks where every slot is of an existing class. |
| TimetableLaws.SlotChanges | src/sms/domains/timetable/service.py:207-225 | A slot comes if and only if it is created, and goes if and only if it is deleted. |
| TimetableLaws.PeriodChanges | src/sms/domains/timetable/service.py:52-106 | A period is stored as asked for, an update changes exactly the given fields, and it goes if and only if it is deleted. |
| TimetableLaws.OtherChanges | src/sms/domains/timetable/service.py:175-225 | No timetable request touches another table. |
| TimetableService.ScheduleSlotService.CheckConflicts | src/sms/domains/timetable/service.py:133-173 | The loop finds the conflict of the class with all its rivals: a vanished class first, then teacher, room, section. |
| TimetableService.ScheduleSlotService.Create | src/sms/domains/timetable/service.py:175-219 | The slot is committed as the booking function says, or nothing changes. |
| TimetableService.ScheduleSlotService.Delete | src/sms/domains/timetable/service.py:221-225 | Exactly that slot goes, or it was not there. |
| TimetableService.ScheduleSlotService.List | src/sms/domains/timetable/service.py:227-250 | For any filters with a class, teacher or section given, the list is exactly the slots whose class meets every filter on the given day, each once; with none of the three the request is refused. |
| TimetableService.ScheduleSlotService.ResolveClassIds | src/sms/domains/timetable/service.py:252-278 | None if and only if no class filter is given, otherwise exactly the classes that meet all of them, possibly none. |
| TimetableService.ScheduleSlotService.ListFiltered | src/sms/domains/timetable/repository.py:125-144 | No class filter lets every class through, an empty list of classes none; each matching slot once. |
| TimetableService.PeriodService.Create | src/sms/domains/timetable/service.py:52-60 | A period is stored unless its times are not a range, its name is taken or it overlaps another; then nothing changes. |
| TimetableService.PeriodService.Update | src/sms/domains/timetable/service.py:71-94 | The given fields change; times given together are refused before anything is read, a single one is checked against the stored row after the name; the first failing check is the answer and nothing changes. |
| TimetableService.PeriodService.Delete | src/sms/domains/timetable/service.py:96-106 | A period goes only when no slot uses it. |
| Sessions.ConsumedOnce | src/sms/domains/auth/repository.py:42-70 | In every interleaving two successful refreshes never presented the same raw token. |
| Sessions.OneChain | src/sms/domains/auth/service.py:159-175 | The successful refreshes are exactly the links of the sessions' chains: each consumed one token of a chain and minted the one after it. |
| Sessions.LiveIffNewest | src/sms/domains/auth/repository.py:59-70 | A token can still be swapped if and only if it is the newest of a session that is not revoked. |
| Sessions.ExpiryIsFixed | src/sms/domains/auth/service.py:143-157 | A session stays and its expiry is for ever the one set at the login. |
| Sessions.LogoutEndsChain | src/sms/domains/auth/service.py:135-141 | After a logout of a session has committed, no token of its chain is ever refreshed again. |
| Sessions.RefreshedInTime | src/sms/domains/auth/service.py:113-120 | In every interleaving a refresh that succeeds looked its session up no later than the session expires. |
| Sessions.SwapHits | src/sms/domains/auth/service.py:107-133 | A swap that hits replaces the token of exactly one session that is not revoked, and the token presented was that session's newest. |
| Sessions.SwapMisses | src/sms/domains/auth/repository.py:59-70 | A swap that lost its race writes nothing. |
| AuthService.SessionRepository.GetByTokenHash | src/sms/domains/auth/repository.py:36-40 | Finds the row with the hash if and only if there is one. |
| AuthService.SessionRepository.Rotate | src/sms/domains/auth/repository.py:42-70 | Compare-and-swap: rows with the old hash and no revocation get the new hash and time stamp, all others stay; true if and only if there was one. |
| AuthService.AuthService.IssueSession | src/sms/domains/auth/service.py:143-157 | Adds one session with the token's hash and the fixed expiry. |
| AuthService.AuthService.Refresh | src/sms/domains/auth/service.py:107-133 | Succeeds if and only if the token is the current one of a session that is not revoked, not expired and of an active account; then only that session's hash and time stamp change. |
| AuthService.AuthService.Logout | src/sms/domains/auth/service.py:135-141 | Revokes the unrevoked session that holds the token and touches no other row; an unknown or revoked token changes nothing. |
| Users.SuperRemains | src/sms/domains/users/service.py:98-141 | In every sequence of creations, issued credentials and updates, once there is an active super admin there is always one. |
| Users.AuditTellsAll | src/sms/domains/users/service.py:60-87 | After every sequence of creations, issued credentials and updates: no account, no entries; the first entry is the creation or starts from the standing with which the credentials were issued; each later one is an update that starts where the one before ended; the last one, or else the first standing, is how the account stands now. |
| Users.CreatedEntryIff | src/sms/domains/teachers/service.py:140-166 | An account has a Created entry if and only if a create request made it, not the issue of credentials for a teacher or a student. |
| Users.BirthIs | src/sms/domains/students/service.py:135-166 | The recorded origin of an account is the one request after which it is there, with its standing then. |
| UserService.UserService.Create | src/sms/domains/users/service.py:32-87 | Account and audit entry are committed together as the request function says, or neither is. |
| UserService.UserService.Update | src/sms/domains/users/service.py:98-141 | Change and audit entry are committed together, or neither is; tier protection goes before the last-super-admin guard. |
| AccountLaws.RefusedIff | src/sms/domains/users/service.py:44-52 | A request on accounts is accepted if and only if there is no reason against it (a missing account, an address taken but for case, the admin tier without a super admin, the last active super admin), and a refusal gives the first. |
| AccountLaws.NewAccounts | src/sms/domains/users/service.py:54-59 | An account comes if and only if it is created or issued, active, with the role and the address asked for; none ever goes. |
| AccountLaws.KeptAccounts | src/sms/domains/users/service.py:117-119 | An account keeps its address, and its role and active flag but for what an update of it gives. |
| AccountLaws.AuditChanges | src/sms/domains/users/service.py:66-76 | Each accepted creation or update adds one entry, naming actor, action and target; entries are never changed. |
| AccountLaws.TierNeedsSuper | src/sms/domains/users/service.py:102-105 | An account that is of the admin tier, or joins it, changes only by a super admin's act. |
| AccountLaws.NewSuperNeedsSuper | src/sms/domains/users/service.py:44-49 | A super admin account is created only by a super admin or the bootstrap script. |
| AccountLaws.SupersGrowBySuper | src/sms/domains/users/service.py:39-49 | Where actors are active accounts with the role they claim, the active super admins grow only by the act of one of them or the bootstrap. |
| AccountLaws.SupersDescendFromBootstrap | src/sms/domains/users/service.py:33-49 | Over such a run there is an active super admin only after a bootstrap. |
| AccountLaws.RunKeepsAddresses | src/sms/domains/users/service.py:51-52 | No two accounts of any run have one address but for case. |
| Admins.SuperRemains | src/sms/domains/users/repository.py:60-76 | In every interleaving of updates that only demote or deactivate there is always an active super admin. |
| Admins.LastSuperLostIff | src/sms/domains/users/service.py:98-119 | In any interleaving, promotions included, a step takes the last active super admin away if and only if it commits a demotion or deactivation of that very account by an update that had read it as no active super admin. |
| Admins.PromotedMeanwhile | src/sms/domains/users/service.py:99-115 | Then another update made the account an active super admin, and committed, between the reading and this commit. |
| Admins.EntryOnTrailIff | src/sms/domains/users/service.py:117-136 | In any interleaving the entry of an update starts where the account's last entry ended if and only if the trail stands at the commit where it stood at the update's unlocked reading. |
| Admins.TrailEndsAtPresent | src/sms/domains/users/service.py:126-136 | In any interleaving the last entry of an account, or else its first standing, is its present standing. |
| Admins.MovedMeanwhile | src/sms/domains/users/service.py:99-136 | If an account stands elsewhere than at a reading, another update of it has committed in between. |
| Admins.RaisedOnlyBySuper | src/sms/domains/users/service.py:102-105 | In any interleaving no account joins the admin tier, or rises in it, by the update of an actor who is no super admin. |
| Admins.TouchedOnlyIfRaised | src/sms/domains/users/service.py:99-105 | An account of the tier is changed by such an actor only if it was below the tier when it was read and another update has raised it since. |
| Admins.TierCanBeTouched | src/sms/domains/users/service.py:99-119 | A reachable commit of an ordinary admin that deactivates an account of the admin tier. |
| Admins.TrailCanBreak | src/sms/domains/users/service.py:117-136 | A reachable commit whose entry does not start where the one before ended. |
| Admins.PromotionRaceLosesAll | src/sms/domains/users/service.py:98-119 | A reachable state has no active super admin left: the race of a promotion with a stale update. |
| Admins.StepKeepsInv | src/sms/domains/users/repository.py:60-76 | Every step keeps the counted rows active super admins while they are locked, and at least two of them for whoever passed the guard. |
| Gradebook.GetClassGradebook | src/sms/domains/assessments/service.py:345-386 | Columns are the class's assessments, each once, by date; rows the ACTIVE students that exist, each once, by last then first name; each cell is the score of a grade for that student and assessment, or None when there is no such grade. |
| Gradebook.ScoreIsDetermined | src/sms/domains/assessments/service.py:364-365 | With one grade per student and assessment a cell has only one possible value. |
| Gradebook.NamesOrder | src/sms/domains/assessments/service.py:375-378 | Ordering by (last name, first name) is total and transitive. |
| Gradebook.AssessmentsByDate | src/sms/domains/assessments/repository.py:54-60 | The assessments of a class, each once, in date order. |
| Listing.EnrolmentListAgrees | src/sms/domains/enrollments/service.py:95-171 | For every caller and page size, the pages of the unfiltered list together hold each enrolment that get returns to the caller exactly once, and every page tells their number. |
| Listing.AssessmentListAgrees | src/sms/domains/assessments/service.py:81-112 | The same for assessments. |
| Listing.GradeListAgrees | src/sms/domains/assessments/service.py:227-311 | The same for grades, whose class is reached through the assessment. |
| Listing.GetShowsTheScope | src/sms/domains/assessments/service.py:81-94 | get shows a student what is theirs, a teacher what is of their own classes, the administration everything, and exactly that, for enrolments, assessments and grades alike. |
| Listing.EnrolmentListShows | src/sms/domains/enrollments/service.py:133-171 | Whatever the filters and for every caller: a teacher who names a foreign class is refused, and otherwise the pages hold each row of the caller's scope that matches the filters exactly once; a student's filter on students is ignored. |
| Listing.AssessmentListShows | src/sms/domains/assessments/service.py:96-112 | The same for assessments. |
| Listing.GradeListShows | src/sms/domains/assessments/service.py:259-311 | The same for grades. |
| Ordering.ReadOnIsTheRest | src/sms/core/pagination.py:20-31 | Pages over consecutive offsets are the rest of the query in order, nothing twice and nothing missing. |
| Rotation.SeedTimetable | src/sms/scripts/seed_demo_data.py:230-261 | From an empty timetable no booking of the nested loop is refused if and only if there are no more sections than subjects (or no periods); then every cell holds the class the rotation gives it. |
| Rotation.CellIsFree | src/sms/scripts/seed_demo_data.py:230-259 | In the rotation the next cell's booking succeeds after all the earlier ones. |
| Rotation.RowsOfTheSquareDiffer | src/sms/scripts/seed_demo_data.py:230-234 | Two of at most n sections never have the same subject in one period. |

## Left out

- Foreign-key share locks, row versions and the identity map: a transaction sees committed rows plus its own inserts, and locking reads return the row as it is when the lock is granted.
- Deletion of students, classes, sections and terms: most foreign keys are RESTRICT, and the services only add get-or-404 to it.
- The ownership check of enroll in the step machine: it reads only the locked class row and refuses more; `Requests.Enroll` has it.
- Lookups of subjects, teachers and grade levels before a write, section names, and the creation and editing of those entities.
- An explicit null in a PATCH for a column that is NOT NULL: an aborted transaction.
- A PATCH that changes the term together with other fields: two requests, the term change and the update of the rest.
- Two locking counts of super admins that take their rows in opposite orders: the database breaks that deadlock by aborting one, which is a step here, but no progress is claimed.
- Password and PIN checks, access tokens, the timing of error replies, user agents and IP addresses.
- `ScheduleSlotService.list_my_timetable`, the link of issued credentials to their record, change requests of teachers, profile pictures, grade and assessment writes.
- Creation times and row ids: lists are paged in an arbitrary but fixed total order, ties of the SQL order included.
- The COMPLETED status: no service sets it.
- Case folding of e-mail addresses beyond the ASCII letters.
- Listing.EnrolmentListAgrees: pages are read from one store; rows inserted between two page requests shift the offsets, as in any offset paging.
