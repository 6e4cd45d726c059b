# Models of a bicycle route planner

A Dafny project that models the algorithmic parts of the route planner and proves what they promise.
One module a component:

| modules | what they model |
|---|---|
| EventStream, PlanStream | the plan told as server-sent events (HTML Living Standard, section 9.2.6): printer, queue and incremental reader |
| OpeningHours, HoursText, Calendar, RoundTheClock, ClosingTimes | opening hours on an infinite timeline of minutes: rules, verdicts, when they are true for ever and to the minute |
| WayMatching, SurfaceEvidence, SurfaceQuality | matching a route to mapped ways, and accounting for its surface |
| ElevationProfile, GradeBands, GradeColours, Climbs, Ascent | smoothing and reading a profile, colouring it by grade, finding climbs, counting ascent |
| XmlText, XmlTree, XmlLexer, XmlForms, GpxFile, GpxReading | writing a route as GPX and reading it and other files back (XML 1.0, sections 3.1 and 4.6) |
| ChatService, ChatTurns, ChatResults, ChatReplacement, ChatExclusion | chat sessions: locks, replaced turns, eviction, in every interleaving |
| CheckpointCodec, ChatStore, ChatSaver | keeping a conversation: pruning, encoding, writing and reading it back |
| ChatGraph, ChatDialogue, ChatChoices, ChatReplies, ChatRounds, ChatMemory | the dialogue: a walk through nodes with a pausing question, its rounds and what it remembers, over every run |
| PagePlans | which of several late answers the page draws |
| EnvFile, EnvLines, Stretches, Waypoints, StopPlaces | the settings file, route colours, stops and nearest points |

Code that works step by step is a method or a class with fields, proved against a function; what the
code promises is proved about that function. Foreign parts are parameters with the laws they are
needed for: JSON, base64, number printing, the checkpoint serialiser, metres per degree of longitude,
the length of a vector, map projections, and the tests that read sentences. The planner, the language
model, the network, the person and the order in which waiting tasks go on are inputs of steps, so the
results hold whatever they do. Numbers are reals; distances are compared squared.

## What the code does not do

Each of these has its exact condition, or a concrete input beside the part that does hold.

- "Around the clock" is for ever exactly when the hours cover every weekday of every month; hours of
  January alone are said to be around the clock too.
- A reported closing time is never too late; it is too early exactly when another span goes on where a
  chosen one ends.
- An event of more than MAX_EVENT_CHARS + 1 characters can be lost, depending on how the network cuts it.
- A track of grade 1 tagged `paved=no` is reported as hard.
- Two messages that wait for the same running turn both get through: once the newer one has gone on,
  nothing replaces the turn of the older.
- A session that is evicted can have two turns at work, exactly when one of its turns is left on the
  lost lock and another is under way.
- MAX_CLARIFICATION_ROUNDS is never looked at: a request can take as many rounds as it gives names.
- After the form was edited, asking for the alternatives returns the old route beside the new request.
- A newer message's route can be lost to an older one that had been held back.
- A settings key on two lines is not updated as read: the later live line wins. A value with a line end
  writes lines of its own.

## Model

| member | source | states |
|---|---|---|
| EventStream.CutConcat | src/bike_routing_agent/frontend/stream.js:65-77 | Cutting a text into events in two goes is cutting it in one: for every pair of texts, what the first leaves over waits for the second. |
| EventStream.Parser.Push | src/bike_routing_agent/frontend/stream.js:65-77 | The buffer and the returned events after a push are those of cutting buffer and new text together; on any input the buffer stays within MAX_EVENT_CHARS. |
| EventStream.Parser.ReadAll | src/bike_routing_agent/frontend/app.js:953-957 | Reading the network pieces one push each gives the events of `Reading`, the fold of the pieces over the buffer. |
| EventStream.ReadingIgnoresCuts | src/bike_routing_agent/frontend/stream.js:65-77 | For every text, well formed or not, the events do not depend on where the network cuts it, as long as no unfinished part exceeds the bound. |
| EventStream.ParsePrinted | src/bike_routing_agent/frontend/stream.js:44-63 | Parsing a block printed by `_sse` gives back its event, for every kind and every data, also behind a stray line feed. |
| EventStream.CutPrinted | src/bike_routing_agent/api.py:771-772 | A printed sequence of events is read back as exactly that sequence. |
| EventStream.ReadingBrokenOff | src/bike_routing_agent/frontend/stream.js:65-77 | A stream of short enough events, broken off anywhere and cut in any way, is read as exactly the events that arrived whole. |
| EventStream.LongEventIsLost | src/bike_routing_agent/frontend/stream.js:42-77 | An event of more than MAX_EVENT_CHARS + 1 characters is lost, and only it, when the network cuts before its last character. |
| EventStream.ReadsBackIffShortEnough | src/bike_routing_agent/frontend/stream.js:42-77 | Printed events survive every way of cutting them if and only if none is longer than MAX_EVENT_CHARS + 1 characters. |
| PlanStream.EveryRunCarries | src/bike_routing_agent/api.py:784-832 | In every interleaving of planner and response body, what was sent is a prefix of what the planner told, and all of it once the body ends. |
| PlanStream.Produce | src/bike_routing_agent/api.py:788-812 | What the producer puts, whether the planner returns or crashes: the steps, a route where there is one, exactly one final event, and the mark that ends the stream. |
| PlanStream.MovingSidesFinish | src/bike_routing_agent/api.py:803-826 | When both sides keep moving, the stream ends within twice the number of items, with everything sent. |
| PlanStream.PageHearsThePlan | src/bike_routing_agent/frontend/app.js:936-975 | The page ends with the plan's outcome, for every interleaving, every cut and every break of the connection: that outcome if all of it arrived, otherwise no result. |
| OpeningHours.Cycle | src/bike_routing_agent/frontend/hours.js:46-64 | The wrapping loop over days or months collects exactly the values on the way from start to end. |
| OpeningHours.ParseTimes | src/bike_routing_agent/frontend/hours.js:82-101 | A list of times is read as its spans, or refused as a whole; a span that ends at or before its start ends the next day. |
| OpeningHours.ParseRule | src/bike_routing_agent/frontend/hours.js:104-124 | A rule is refused exactly when a part of it is; otherwise it has the days, months and times its parts name. |
| OpeningHours.Parse | src/bike_routing_agent/frontend/hours.js:143-164 | The text is refused when a rule is; otherwise the rules are those read, in order, with what replaces and what adds. |
| OpeningHours.MeaningIsValid | src/bike_routing_agent/frontend/hours.js:82-101 | No parsed span outlasts the day after the one it starts on. |
| HoursText.ShownIsRead | src/bike_routing_agent/frontend/hours.js:38-43 | Every minute of a day, written as a time of day (hours.js:274-278), is read as that minute, as a start and as an end. |
| HoursText.ShownPastMidnight | src/bike_routing_agent/frontend/hours.js:274-278 | A time of the next morning is written as the time of day it is. |
| HoursText.UnderstoodIff | src/bike_routing_agent/frontend/hours.js:143-164 | A text is understood if and only if it has a rule, every piece is one, no range of days ends in a holiday, and its times make sense: hours to 23, minutes to 59, 24:00 only as an end, start and end not the same, a plus only behind an end of the same day. |
| HoursText.RulesAreListed | src/bike_routing_agent/frontend/hours.js:150-162 | The rules are those between semicolons and commas, in order; behind a semicolon a rule replaces, behind a comma it adds. |
| HoursText.OpenAsSaid | src/bike_routing_agent/frontend/hours.js:82-177 | On the timeline a text opens exactly the minutes its words say: those from "a" to "b" of a day, or to "b" of the next morning when "b" is no later, by a rule that covers the day and is not replaced by a later one. |
| HoursText.UnknownIff | src/bike_routing_agent/frontend/hours.js:212-233 | No verdict is given exactly where the text is not understood, its months are asked for without a month, or an end with a plus is past and nothing else holds the minute. |
| HoursText.AlwaysAnswered | src/bike_routing_agent/frontend/hours.js:212-233 | So hours that are understood and have no plus always get open or closed, asked with a month where they name months. |
| OpeningHours.FoldSpans | src/bike_routing_agent/frontend/hours.js:170-177 | The loop over the rules gives the spans of a day as the recursive meaning has them. |
| OpeningHours.ReplacingRuleWins | src/bike_routing_agent/frontend/hours.js:170-177 | A replacing rule wipes out all that came before it for the days it names, however long the list. |
| OpeningHours.MonthFollowsCalendar | src/bike_routing_agent/frontend/hours.js:184-187 | The month the code finds at an offset is the calendar's month that many days later, leap years included. |
| Calendar.CalendarIsGregorian | src/bike_routing_agent/frontend/hours.js:184-187 | That calendar is the Gregorian one: its days have the consecutive numbers of a formula without months and leap years. |
| Calendar.TwoDigitYears | src/bike_routing_agent/frontend/hours.js:184-187 | Years 0 to 99 are read as 1900 to 1999, as `Date.UTC` does, all others as they are. |
| OpeningHours.TwoDaysSuffice | src/bike_routing_agent/frontend/hours.js:212-233 | On the infinite minute timeline, any span that covers a minute belongs to that minute's day or to the day before. |
| OpeningHours.ClosingAfter | src/bike_routing_agent/frontend/hours.js:191-202 | The loop over at most seven days computes the closing moment (a day and a minute of that day) of the specification `Closing`. |
| OpeningHours.OpenUntilClosing | src/bike_routing_agent/frontend/hours.js:191-202 | Every minute from the end handed in to the closing moment is covered, across every midnight, and the closing moment is no midnight a span begins at. |
| OpeningHours.Evaluate | src/bike_routing_agent/frontend/hours.js:212-233 | The verdict is `Judge` of the parsed hours; text that is not understood gives no verdict. |
| OpeningHours.OpenIffOnTimeline | src/bike_routing_agent/frontend/hours.js:212-233 | Open is said of exactly the minutes the timeline has open. |
| OpeningHours.OpenUntilSaid | src/bike_routing_agent/frontend/hours.js:212-233 | With a closing time, every minute until then is open. |
| OpeningHours.OpenWithoutEnd | src/bike_routing_agent/frontend/hours.js:212-233 | Without one, the place has an open-ended span now, or is open for the next seven days. |
| RoundTheClock.OpenForEverIff | src/bike_routing_agent/frontend/hours.js:184-233 | On the real calendar, from any minute of any date: no later minute is ever closed if and only if the hours cover every weekday of every month, spans past midnight and the firsts of months included. |
| RoundTheClock.AroundTheClockForever | src/bike_routing_agent/frontend/hours.js:191-233 | Said to be around the clock, hours without months meet that condition. |
| RoundTheClock.HalvesOfTheYear | src/bike_routing_agent/frontend/hours.js:170-202 | So do "Apr-Oct 24/7; Nov-Mar 24/7", which name months. |
| RoundTheClock.SameMonthSameVerdict | src/bike_routing_agent/frontend/hours.js:184-187 | A question without a date gets the verdict of one with a date, as long as no day the code looks at is in another month. |
| OpeningHours.AroundTheClockEndsWithTheMonth | src/bike_routing_agent/frontend/hours.js:191-233 | With months it need not: hours of January only, asked on 20 January, are said to be around the clock and are closed on 1 February. |
| OpeningHours.ClosedUntilSaid | src/bike_routing_agent/frontend/hours.js:212-233 | Closed: so it stays until the opening time given, or until midnight when none is. |
| OpeningHours.OverlapClosesTooEarly | src/bike_routing_agent/frontend/hours.js:212-233 | With overlapping spans the closing time is sound but not maximal: "10:00-12:00,11:00-18:00" at 11:30 is said to close at noon. |
| ClosingTimes.MomentIsSaid | src/bike_routing_agent/frontend/hours.js:191-233 | A closing time is that of a day at most seven days on, and the place is open until then. |
| ClosingTimes.ClosingTimeIsExactIff | src/bike_routing_agent/frontend/hours.js:191-233 | For every answer: its closing time is the first closed minute if and only if no span goes on at the end of the span the answer ends with, which is found by following it over midnights. |
| ClosingTimes.ClosingTimesAreExactIff | src/bike_routing_agent/frontend/hours.js:191-233 | So all closing times given on a day are the first closed minute if and only if no span goes on where one ends that an answer ends with. |
| ClosingTimes.HarmlessOverlap | src/bike_routing_agent/frontend/hours.js:191-233 | Spans may overlap without harm: in "11:00-18:00,10:00-12:00" every closing time from 11:00 on is right. |
| WayMatching.SegmentIsLeast | src/bike_routing_agent/enrichment/geometry.py:79-94 | The clamped projection gives the least squared distance over all points of a non-degenerate segment. |
| WayMatching.LineIsLeast | src/bike_routing_agent/enrichment/geometry.py:97-105 | The distance to a way is at most that to any point of any of its proper segments. |
| WayMatching.LineIsReached | src/bike_routing_agent/enrichment/geometry.py:97-105 | And it is the distance to some point of the way. |
| WayMatching.WithinToleranceIsInBox | src/bike_routing_agent/enrichment/geometry.py:118-136 | The prefilter is safe: a point within the tolerance of a way lies in the way's grown bounding box. |
| WayMatching.BestWay | src/bike_routing_agent/enrichment/geometry.py:139-167 | The inner loop over the prefiltered ways finds what a search of all of them finds: the last way at least distance, if within tolerance. |
| WayMatching.MatchSegments | src/bike_routing_agent/enrichment/geometry.py:139-167 | Every segment gets exactly the way an exhaustive search would find, or none. |
| WayMatching.RightMatchIsUnique | src/bike_routing_agent/enrichment/geometry.py:139-167 | That way is unique, so the two searches agree. |
| WayMatching.DegreesAreMeters | src/bike_routing_agent/enrichment/geometry.py:52-56 | The distance of two points: 111320 m a degree of latitude, and the metres a degree of longitude has at the latitude between them. |
| SurfaceQuality.ConflictIsContradiction | src/bike_routing_agent/enrichment/quality.py:92-152 | A conflict is exactly hard evidence against soft evidence or `paved=no` against a hard surface, and leaves the way without a category. |
| SurfaceQuality.HardDespiteUnpaved | src/bike_routing_agent/enrichment/quality.py:92-152 | The exact case in which a way tagged `paved=no` is still reported as hard: a track of grade 1 with no known surface. |
| SurfaceEvidence.SpellingDoesNotMatter | src/bike_routing_agent/enrichment/quality.py:71-73 | Spaces around a tag value, capitals for its letters and what follows a colon do not matter, for every word. |
| SurfaceEvidence.WordsMean | src/bike_routing_agent/config.py:575-602 | The words of `surface` and the category each of them, and no other word, stands for. |
| SurfaceEvidence.TrackWordsMean | src/bike_routing_agent/config.py:664-670 | The same for `tracktype`. |
| SurfaceEvidence.ContradictionIff | src/bike_routing_agent/enrichment/quality.py:143-152 | In terms of the tags alone: a way is in conflict in exactly four cases, `paved=yes` with `native=yes` or with soft ground, `paved=no` or `native=yes` with hard ground. |
| SurfaceEvidence.EvidenceWinsInOrder | src/bike_routing_agent/enrichment/quality.py:92-140 | Otherwise a way has a category as explicit evidence exactly when its surface tag is a word for it, and as inferred evidence exactly when that tag says nothing and its track type is, or, without one, `paved=yes` or else `native=yes` says so. |
| SurfaceEvidence.RoadAndAccessAreKept | src/bike_routing_agent/enrichment/quality.py:92-140 | Road class and access of a way are what their tags say, conflict or not. |
| SurfaceQuality.BuildSummary | src/bike_routing_agent/enrichment/quality.py:155-205 | The accumulator loop computes the summary of the recursive account. |
| SurfaceQuality.AccountBalances | src/bike_routing_agent/enrichment/quality.py:155-205 | Known and unknown lengths add up to the route; conflicts are within the unknown, inferred within the known, roads and access within the whole. |
| SurfaceQuality.SharesAddUp | src/bike_routing_agent/enrichment/quality.py:155-205 | For every route and tags: known shares plus the unknown share are 1, and the other shares keep their bounds. |
| SurfaceQuality.CoverageMeasures | src/bike_routing_agent/enrichment/quality.py:155-205 | The entry of a category measures the length of the segments that have it, and is there exactly when there are any. |
| SurfaceQuality.RoadsMeasure | src/bike_routing_agent/enrichment/quality.py:155-205 | So does the entry of a road class. |
| SurfaceQuality.AccessMeasures | src/bike_routing_agent/enrichment/quality.py:155-205 | And that of an access value. |
| SurfaceQuality.UnknownMeasures | src/bike_routing_agent/enrichment/quality.py:155-205 | The unknown length is that of segments without a way, with contradictory tags or without evidence. |
| SurfaceEvidence.InferredMeasures | src/bike_routing_agent/enrichment/quality.py:155-205 | The inferred length is that of segments whose way has a category by inferred evidence. |
| SurfaceEvidence.SharesMeasure | src/bike_routing_agent/enrichment/quality.py:155-205 | Every share of a route with a length is what it measures, divided by that length. |
| SurfaceEvidence.NoLengthIsUnknown | src/bike_routing_agent/enrichment/quality.py:155-205 | A route of no length has no shares: all of it is unknown. |
| SurfaceQuality.Summarize | src/bike_routing_agent/enrichment/overpass.py:207-224 | Matching and accounting together: the summary counts each stretch for the way the exhaustive search finds. |
| ElevationProfile.Smooth | src/bike_routing_agent/frontend/profile.js:61-73 | For non-decreasing distances, every smoothed value is the mean of all elevations within half a window; the window is never empty. |
| ElevationProfile.Interpolate | src/bike_routing_agent/frontend/profile.js:76-89 | The binary search finds the line between the two vertices around the distance, and the ends outside. |
| ElevationProfile.LineStaysBetween | src/bike_routing_agent/frontend/profile.js:76-89 | The interpolated value lies between the two bracketing values. |
| ElevationProfile.LineMeetsVertex | src/bike_routing_agent/frontend/profile.js:76-89 | At the first vertex's distance it is the value of the first vertex; at any other vertex the value of the last vertex at that distance, the end of the route included. |
| GradeBands.Accumulate | src/bike_routing_agent/frontend/profile.js:104-106 | The distances are the running sums, so they never decrease. |
| GradeBands.BandRuns | src/bike_routing_agent/frontend/profile.js:295-322 | Runs of samples of one band, as long as they can be: neighbours differ, and every sample interval has the band of the grade around its middle. |
| GradeBands.RunsCoverRoute | src/bike_routing_agent/frontend/profile.js:295-322 | The runs tile the route from 0 to its length with no gap and no overlap. |
| GradeBands.PartsAreAbout25m | src/bike_routing_agent/frontend/profile.js:92-94 | The route is cut into equal parts as near to 25 m as a whole number of parts from 1 to 239 allows. |
| GradeBands.InsideIsStretch | src/bike_routing_agent/frontend/profile.js:310-318 | The inner vertices of a piece are one stretch of the route: exactly those strictly between its ends, in order, each once. |
| GradeBands.BandPieces | src/bike_routing_agent/frontend/profile.js:295-322 | A drawn piece goes from its start through exactly the vertices inside to its end, where the next begins. |
| GradeBands.ChartAreas | src/bike_routing_agent/frontend/profile.js:237-260 | The chart has one area for each part of the route, from sample to sample of the profile, coloured by the grade around its middle. |
| GradeBands.MapAgreesWithChart | src/bike_routing_agent/frontend/profile.js:237-322 | Map and chart agree: every area of the chart lies within one run of the map, of the same band. |
| GradeColours.StretchRises | src/bike_routing_agent/frontend/profile.js:76-89 | A stretch of the line all of whose parts rise at least by a grade rises by that grade at least, steps included. |
| GradeColours.ChartMeansWhatItSays | src/bike_routing_agent/frontend/profile.js:245-260 | Every area of the chart has the colour of the grades within 150 m of its middle: where the grade is one and the same, the band whose limits enclose it; where the route never falls, no descent; where it never rises, no climb. |
| GradeColours.MapMeansWhatItSays | src/bike_routing_agent/frontend/profile.js:301-313 | So has every part of a run on the map. |
| GradeBands.LegendAddsUp | src/bike_routing_agent/frontend/profile.js:325-332 | Before small rows are left out, the legend's lengths add up to the whole route. |
| GradeBands.LegendIs | src/bike_routing_agent/frontend/profile.js:325-332 | The legend has exactly the bands of 25 m or more, from the steepest descent to the steepest climb, each with its length and its share of the route. |
| Climbs.ConsideredAreRises | src/bike_routing_agent/frontend/profile.js:146-174 | The stretches the state machine looks at are disjoint, in order, and contain no drop of DIP_M or more. |
| Climbs.NoRiseIsMissed | src/bike_routing_agent/frontend/profile.js:146-174 | Every rise of gain G without such a drop has a stretch looked at that gains more than G - DIP_M. |
| Climbs.FindClimbs | src/bike_routing_agent/frontend/profile.js:146-174 | The loop names the first `limit` of the stretches that meet the limits, sorted by gain. |
| Climbs.SortSorts | src/bike_routing_agent/frontend/profile.js:146-174 | The sorting puts the largest gain first and keeps every climb. |
| Climbs.FoundAreClimbs | src/bike_routing_agent/frontend/profile.js:146-174 | Climbs are exactly the stretches of 25 m of gain or more, 400 m or longer and 3 % steep or more, each with its start, length, gain and grade. |
| Climbs.NamedClimbs | src/bike_routing_agent/frontend/profile.js:146-174 | Every named climb is such a climb without a dip of 10 m in it; as many as asked for are named, three by default, or all; one left out gains no more than any named. |
| Ascent.Climb | src/bike_routing_agent/frontend/gpx-import.js:129-144 | The hysteresis loop computes the tally of the series. |
| Ascent.ClimbIsWithinStep | src/bike_routing_agent/frontend/gpx-import.js:129-144 | For every series, ascent minus descent differs from last minus first by less than ASCENT_STEP_M, and neither exceeds the total variation its way. |
| Ascent.BigStepsCountInFull | src/bike_routing_agent/frontend/gpx-import.js:129-144 | A series whose every change is a step or more is counted in full. |
| Ascent.Thin | src/bike_routing_agent/frontend/gpx-import.js:147-153 | Point k of the thinned line is point k * step of the track, step being the length over the limit rounded up; the last point is kept; at most limit + 1 points are left. |
| XmlText.DecodeEscape | src/bike_routing_agent/frontend/gpx-import.js:25-31 | Decoding undoes escaping on every text (XML 1.0, section 4.6). |
| XmlText.EscapeFirst | src/bike_routing_agent/frontend/export.js:13-19 | Four replacements in a row are one replacement of every character. |
| XmlText.EscapedIsSafe | src/bike_routing_agent/frontend/export.js:13-19 | An escaped text holds no character that would end a text or an attribute value. |
| XmlForms.ReferenceIsRead | src/bike_routing_agent/frontend/gpx-import.js:25-31 | A reference by a code, in decimal or hexadecimal digits of either case, is read as its character, for every code; a code of no character as nothing. |
| XmlForms.ReferenceIff | src/bike_routing_agent/frontend/gpx-import.js:25-31 | What stands behind an ampersand is a reference if and only if it is one of the five names, or digits of the right kind behind a mark and before a semicolon. |
| XmlTree.ParseTokens | src/bike_routing_agent/frontend/gpx-import.js:40-70 | The loop with its stack of open tags computes the tree, or refuses. |
| XmlTree.BuildInvertsPrinting | src/bike_routing_agent/frontend/gpx-import.js:40-70 | A tree is built of exactly the token lists that print it; unbalanced tags are always refused (XML 1.0, section 3.1). |
| XmlLexer.LexItems | src/bike_routing_agent/frontend/gpx-import.js:36-67 | Cutting a printed list of items into tokens gives the items' tokens. |
| XmlLexer.ReadPrinted | src/bike_routing_agent/frontend/gpx-import.js:36-70 | Every printable tree is read back from its text. |
| XmlForms.SingleQuotedIsRead | src/bike_routing_agent/frontend/gpx-import.js:36-38 | An attribute in single quotes is read like one in double quotes. |
| XmlForms.CommentIsPassed | src/bike_routing_agent/frontend/gpx-import.js:36-67 | A comment is passed over, whatever is in it. |
| XmlForms.SectionIsText | src/bike_routing_agent/frontend/gpx-import.js:36-50 | A CDATA section is text as it stands: nothing in it is a tag or a reference. |
| GpxReading.AnyFileIsRead | src/bike_routing_agent/frontend/gpx-import.js:40-70 | The text of any GPX tree, not only a written one, is read as that tree, behind a byte order mark or without. |
| GpxReading.RefusedForDoctypeIff | src/bike_routing_agent/frontend/gpx-import.js:41-42 | A text is refused for its document type if and only if `<!doctype` is somewhere in it, in any case. |
| GpxReading.TrackGoesFirst | src/bike_routing_agent/frontend/gpx-import.js:162-196 | Of a file with a track and a route, the track is read when a line of it has two points, otherwise the route when it has two, otherwise nothing; under its own name, or the header's when it has none. |
| GpxFile.GpxIsPrinted | src/bike_routing_agent/frontend/export.js:124-152 | The text the exporter concatenates is the print of one tree behind the header. |
| GpxFile.PointIsReadBack | src/bike_routing_agent/frontend/gpx-import.js:105-112 | A written point is read back with its elevation exactly when its latitude is within 90 and its longitude within 180 degrees, and dropped otherwise. |
| GpxFile.DecimalsAreExact | src/bike_routing_agent/frontend/export.js:124-152 | The law asked of number printing can be met: decimals of seven places are printed and read back. |
| GpxFile.WrittenIsReadBack | src/bike_routing_agent/frontend/gpx-import.js:162-232 | For every route whose numbers the printer gives back: reading what was written gives its points on Earth in order, their elevations when all have one, and the trimmed name; it is refused only when no line has two such points. |
| GpxReading.RouteComesBack | src/bike_routing_agent/frontend/export.js:124-152 | So a written route whose places are on Earth comes back as the same way, with its elevations when all points have one, under its trimmed name, or as "route" without one; unless no line has two points. |
| ChatService.Service.Touch | src/bike_routing_agent/chat/service.py:269-280 | The touched session is last, has its old lock if it had one, and only the oldest beyond `max_sessions` are dropped. |
| ChatService.Service.BeginSend | src/bike_routing_agent/chat/service.py:110-112 | A turn still running is marked as replaced, and nothing else changes. |
| ChatService.Service.EndSend | src/bike_routing_agent/chat/service.py:125-128 | At the end a send takes its own turn out of the books and leaves a newer turn in them. |
| ChatService.TouchDropsTheOldest | src/bike_routing_agent/chat/service.py:269-280 | Dropped and kept sessions together are all, in order of use: only the least recently used go, only when the bound is reached, and never the touched one. |
| ChatTurns.EveryRunKeepsInvariant | src/bike_routing_agent/chat/service.py:96-157 | The protocol's invariant (books, locks, phases of turns and senders) holds after every run of events. |
| ChatTurns.OneTurnAtATime | src/bike_routing_agent/chat/service.py:130-157 | In every interleaving in which a session is not dropped, at most one of its turns works at a time. |
| ChatTurns.OnlyNewerSendsSupersede | src/bike_routing_agent/chat/service.py:109-128 | Whoever gets TurnSuperseded had their turn replaced by a newer send to the same session. |
| ChatTurns.NewestIsNeverSuperseded | src/bike_routing_agent/chat/service.py:109-128 | The newest send to a session never gets it. |
| ChatTurns.ReplacedCallerIsTold | src/bike_routing_agent/chat/service.py:118-128 | A replaced turn that ends cancelled tells its caller so. |
| ChatTurns.BooksAreLive | src/bike_routing_agent/chat/service.py:125-128 | The books hold only turns whose caller has not returned, so they are empty once all have. |
| ChatTurns.SessionsAreBounded | src/bike_routing_agent/chat/service.py:269-280 | In every run there are never more than `max_sessions` sessions. |
| ChatResults.CallersAreToldRightly | src/bike_routing_agent/chat/service.py:118-128 | In every run: a turn that ended by itself gives its caller the reply, unless that caller had left; a cancelled turn says whether a newer send replaced it; only a replaced turn gives TurnSuperseded, and only a caller that had left, of a turn nobody replaced, is told nothing. |
| ChatResults.InterruptedGetsNoReply | src/bike_routing_agent/chat/service.py:120-124 | A caller whose own cancellation reaches it first gets no reply even when its turn had just ended; otherwise it still does. |
| ChatReplacement.ReplaceableIff | src/bike_routing_agent/chat/service.py:109-117 | While its session is known, some later run replaces a turn if and only if the books hold that turn and it is not over. |
| ChatReplacement.OvertakenIsNeverReplaced | src/bike_routing_agent/chat/service.py:109-117 | Once a send has gone on while another of its session waited, and that one has gone on too, no later run replaces the turn of the first. |
| ChatReplacement.OneLiveTurn | src/bike_routing_agent/chat/service.py:109-117 | In every run that makes no turn while another send of its session waits, a session has at most one turn that is not over, evicted or not. |
| ChatReplacement.NextSendReplaces | src/bike_routing_agent/chat/service.py:109-117 | And in every such run the next send to a known session replaces that turn. |
| ChatExclusion.SafeDropsKeepExclusion | src/bike_routing_agent/chat/service.py:130-157 | In every run in the order of the event loop whose drops of a session leave no risk behind, its turns work one at a time. |
| ChatExclusion.DropBreaksExclusionIff | src/bike_routing_agent/chat/service.py:130-157 | After a drop, some run that does not drop the session again lets two of its turns work at once if and only if a turn still holds, or waits for, the lost lock while another is under way: on yet another lock, not begun, or of a send that waits for another turn. |
| ChatExclusion.EvictionBreaksExclusion | src/bike_routing_agent/chat/service.py:269-280 | It happens: a run of 21 steps, every task beginning in its order, ends with two turns of an evicted session at work. |
| CheckpointCodec.DecodeUndoesEncode | src/bike_routing_agent/chat/store.py:44-68 | For every nesting of bytes, tuples, lists and dicts, including dicts whose keys look like tags, decoding gives the encoded value back. |
| CheckpointCodec.EncodingIsInjective | src/bike_routing_agent/chat/store.py:44-54 | Two values with one encoding are equal. |
| CheckpointCodec.DecodedIsWellFormed | src/bike_routing_agent/chat/store.py:57-68 | Any JSON at all is refused or read as a value Python could hold: hashable, distinct dict keys at every depth. |
| CheckpointCodec.HashableIff | src/bike_routing_agent/chat/store.py:57-68 | A value can be a key of a decoded dict exactly when no list and no dict is reached through its tuples. |
| CheckpointCodec.OddDicts | src/bike_routing_agent/chat/store.py:57-68 | A dict written as something other than a list of pairs is refused, but for empty text and for an object whose names all have two characters. |
| ChatStore.PruningKeepsTheConversation | src/bike_routing_agent/chat/store.py:85-96 | In every namespace, what a conversation is resumed from (latest checkpoint, its pending writes, the channel values it names) is the same before and after pruning. |
| ChatStore.PruningLeavesOne | src/bike_routing_agent/chat/store.py:85-96 | At most one checkpoint a namespace is left. |
| ChatStore.TextOrderIff | src/bike_routing_agent/chat/store.py:85-96 | The checkpoint kept is the last in the order of texts: an id comes no later than another exactly when it is a beginning of it or has the smaller character where they first differ. |
| ChatStore.PruneOneMore | src/bike_routing_agent/chat/store.py:86-95 | Pruning namespaces one at a time is pruning them together: a stale item stays stale while others are pruned. |
| ChatStore.ConversationComesBack | src/bike_routing_agent/chat/store.py:170-177 | Whatever order the dicts were written in, the row gives the conversation back; pending writes without an entry are not made again. |
| ChatStore.RestartKeepsTheConversation | src/bike_routing_agent/chat/store.py:139-213 | Pruned, written and read back within its age limit by the same layout, a conversation resumes from exactly what it would have resumed from before. |
| ChatSaver.WrittenRowIsLoadedIff | src/bike_routing_agent/chat/store.py:139-168 | Of the rows this saver wrote, exactly those of its layout that are no older than the limit are kept and in memory after start, each as the conversation it was written from. |
| ChatSaver.OldRowsGo | src/bike_routing_agent/chat/store.py:148-168 | A row past its age or of another layout is neither kept nor in memory, whatever it holds. |
| ChatSaver.SqliteChatSaver.KeepLatest | src/bike_routing_agent/chat/store.py:85-96 | The in-place loop leaves the pruned conversation, and every other thread as it was. |
| ChatSaver.SqliteChatSaver.KeepLatestOf | src/bike_routing_agent/chat/store.py:86-96 | So does one round of it for one namespace. |
| ChatSaver.SqliteChatSaver.Persist | src/bike_routing_agent/chat/store.py:185-213 | The thread's row becomes a print of what memory holds of it, with layout and time; no other row and nothing in memory changes. |
| ChatSaver.SqliteChatSaver.Restore | src/bike_routing_agent/chat/store.py:170-177 | The row's conversation is in memory exactly when the row can be read; other threads are untouched even when it cannot. |
| ChatSaver.SqliteChatSaver.Load | src/bike_routing_agent/chat/store.py:139-168 | After start, memory holds exactly the conversations of the rows that are young enough, of this layout and readable; the other rows are gone; the ids are listed least recently used first. |
| ChatSaver.SqliteChatSaver.Forget | src/bike_routing_agent/chat/store.py:179-181 | A forgotten thread is gone from memory, and nothing else is. |
| ChatSaver.SqliteChatSaver.DeleteThread | src/bike_routing_agent/chat/store.py:215-219 | A deleted thread is gone from memory and file, and nothing else is. |
| ChatGraph.EveryRunKeepsInvariant | src/bike_routing_agent/chat/graph.py:200-650 | After any messages, planner answers, intents and broken-off turns: last_plan is absent or ready, nothing is handed out before the last step, the open question is the first unanswered one, and planning and choosing have what they need. |
| ChatGraph.TurnHandsOutLastPlan | src/bike_routing_agent/chat/graph.py:200-226 | A finished turn hands out either no plan or last_plan, and that is ready. |
| ChatReplies.TurnRepliesIff | src/bike_routing_agent/chat/graph.py:402-470 | In every run, a turn ends without a reply if and only if the planner waited for a choice of places and named none; its own steps always name one (nodes/validate.py:46-57, nodes/geocode.py:66-104). |
| ChatReplies.AlternativesShow | src/bike_routing_agent/chat/graph.py:547-577 | A question about alternatives hands out the route on screen, with the one asked for in focus, unless there is none, or one of several was asked for and none was recognised. |
| ChatReplies.IntentDoesWhatItIsFor | src/bike_routing_agent/chat/graph.py:228-242 | Every intent leads where it should, told by what can happen next; starting over forgets all routes; sights, explanations, files and help end the turn without handing out or changing any. |
| ChatReplies.ChangeNeedsARequest | src/bike_routing_agent/chat/graph.py:328-385 | A request is changed if and only if there is one: the one that failed, or that of the route on screen. |
| ChatReplies.OpenChoicesAre | src/bike_routing_agent/chat/graph.py:402-467 | A ready plan and starting over leave no place to choose, a waiting plan the choices it names; nothing else opens one. |
| ChatGraph.ChoiceReducesWords | src/bike_routing_agent/chat/graph.py:864-881 | A place choice leaves strictly fewer places in words if and only if its field is one of the request's worded places. |
| ChatGraph.ChoiceChangesOnlyItsField | src/bike_routing_agent/chat/graph.py:864-881 | All places typed as the field become the chosen position; all others, and the rest of the request, stay. |
| ChatChoices.OfferedAre | src/bike_routing_agent/chat/graph.py:485-489 | Of the first five candidates those are offered that begin as the place was typed; all five when none does. |
| ChatChoices.OfferedInOrder | src/bike_routing_agent/chat/graph.py:485-509 | The candidates are offered in the order they came, so an answer by number means the one shown with it. |
| ChatChoices.AnswerChooses | src/bike_routing_agent/chat/graph.py:503-533 | The candidate an answer names is the position of every place typed as the open question's field in the request planned next; only that question is settled; an answer that names nobody changes no request. |
| ChatChoices.OnePlaceIsTaken | src/bike_routing_agent/chat/graph.py:490-500 | Where all that is offered is one place, its first candidate is taken without asking; otherwise the person is asked. |
| ChatGraph.InternalStepGetsCloser | src/bike_routing_agent/chat/graph.py:389-543 | While nobody writes, and the geocoder asks only about worded places (nodes/geocode.py:66-75), every step decreases a well-founded measure. |
| ChatGraph.PlanningIsShort | src/bike_routing_agent/chat/graph.py:389-543 | So a request with n places in words is planned and clarified in at most 2n + 3 steps before the walk ends or asks. |
| ChatRounds.RoundsSettleNames | src/bike_routing_agent/chat/graph.py:389-543 | While a request is planned and clarified, answers of the person included, the rounds so far are exactly the different names settled so far. |
| ChatRounds.RoundsAreNames | src/bike_routing_agent/chat/graph.py:44 | From the first message on, a request can take k rounds if and only if it gives at least k different names; so it goes beyond MAX_CLARIFICATION_ROUNDS, which nothing looks at, exactly when it gives more names than that. |
| ChatGraph.OnlyThisIsForgotten | src/bike_routing_agent/chat/graph.py:402-467 | Of last_request, last_plan, failed_request and awaiting_request a step changes only what its case says: a failed or waiting request never replaces the route on screen. |
| ChatMemory.HoldsWhatWasTold | src/bike_routing_agent/chat/graph.py:185-226 | After every run the conversation holds the request and the route that plans and forms told it last. |
| ChatMemory.ReturnedRequestIsTheRoutesIff | src/bike_routing_agent/chat/graph.py:185-226 | In every run, the request returned beside a route is the one it was planned from (chat/models.py:85-87 promises it) if and only if the last ready plan or form with something to say kept the two together, and every form since said nothing. |
| ChatMemory.PairingFormsKeep | src/bike_routing_agent/chat/graph.py:185-198 | So it is in every run whose forms send a route with its own request, or neither. |
| ChatMemory.EditedFormSeparatesThem | src/bike_routing_agent/chat/graph.py:185-198 | When a form sends an edited request alone, asking for the alternatives returns the old route beside the new request. |
| ChatGraph.AnswerAdvances | src/bike_routing_agent/chat/graph.py:727-771 | A usable answer to the open question leaves fewer questions, at most four in all. |
| ChatGraph.QuestionsRunOut | src/bike_routing_agent/chat/graph.py:281-326 | A message to an open question leaves it as it was, or answers it for good and goes on to the next or to planning. |
| ChatGraph.DialogueAsksForWhatWasSaid | src/bike_routing_agent/chat/graph.py:808-826 | When no question is left the request is a loop of the distance said or leads to the destination said, never both, whatever was carried over. |
| ChatDialogue.AnswerIsStored | src/bike_routing_agent/chat/graph.py:727-756 | An answer is usable exactly when it is not blank and says what its question is about: a loop or a destination, a distance from 1 to 1000 km, a bike or to skip it; then that is stored, and nothing else of the draft changes. |
| ChatDialogue.QuestionIsAnswered | src/bike_routing_agent/chat/graph.py:281-326 | In the graph: after a usable answer the dialogue asks for the first thing missing or plans exactly what the draft says, carried constraints included; after any other the question stays open and nothing changes. |
| ChatDialogue.LineStartsTheDialogue | src/bike_routing_agent/chat/graph.py:774-805 | With no question open, what a line says is taken into the draft and the dialogue goes on from there; a line with a question mark tells it nothing. |
| ChatDialogue.OthersDropTheDialogue | src/bike_routing_agent/chat/graph.py:185-226 | Only a message meant for the dialogue goes on with it; any other drops its question and its draft. |
| ChatDialogue.StartingOverAsks | src/bike_routing_agent/chat/graph.py:625-636 | Starting over leaves a dialogue with an empty draft and its first question. |
| ChatDialogue.FourAnswersMakeTheRequest | src/bike_routing_agent/chat/graph.py:281-326 | From the first question, four usable answers in turns of their own end in the planning of exactly the request they ask for. |
| PagePlans.Page.PlanRoute | src/bike_routing_agent/frontend/app.js:868-888 | Sending the form raises the generation, makes it pending and clears the results; drawing and generations stay in step. |
| PagePlans.Page.PlanAnswered | src/bike_routing_agent/frontend/app.js:890-913 | The page after an answer is that of `FormAnswered`: drawn only if current, then settled. |
| PagePlans.Page.SettlePlan | src/bike_routing_agent/frontend/app.js:980-992 | The page after settling is that of `Settled`. |
| PagePlans.Page.ChatReplied | src/bike_routing_agent/frontend/app.js:2530-2550 | The page after a chat answer is that of `ChatAnswered`: drawn, held back, or neither. |
| PagePlans.Page.DrawChatPlan | src/bike_routing_agent/frontend/app.js:2556-2567 | A drawn chat route becomes the newest plan and ends what was held back. |
| PagePlans.Page.ImportGpx | src/bike_routing_agent/frontend/app.js:1334-1335 | Choosing a file makes it the one to show; nothing on the page changes yet. |
| PagePlans.Page.GpxRead | src/bike_routing_agent/frontend/app.js:1344-1359 | Only the latest chosen file is drawn; it becomes the newest plan. |
| PagePlans.EveryRunKeepsInvariant | src/bike_routing_agent/frontend/app.js:868-992 | After every interleaving: a drawing on the map means the newest generation is the drawn one, the newest form request under way is the pending one, and no request names a later generation. |
| PagePlans.OnlyTheNewestFormIsDrawn | src/bike_routing_agent/frontend/app.js:897-903 | In every interleaving a form answer gets onto the map only if its generation is the newest, and then onto an empty map. |
| PagePlans.OlderAnswerChangesNothing | src/bike_routing_agent/frontend/app.js:980-982 | The answer to an older request changes nothing but that it is no longer pending. |
| PagePlans.OlderNeverReplacesNewer | src/bike_routing_agent/frontend/app.js:2530-2567 | What replaces a drawing on the map was never asked for before it. |
| PagePlans.FileIsDrawnIff | src/bike_routing_agent/frontend/app.js:1334-1359 | In every run, a file that was chosen is drawn when it has been read if and only if it is a GPX and neither another file was chosen nor the form reset since; otherwise the page stays as it is. |
| PagePlans.MapIsClearedIff | src/bike_routing_agent/frontend/app.js:868-888 | Sending the form and resetting it clear the map, and nothing else does. |
| PagePlans.NewestSettlesTheHeldRoute | src/bike_routing_agent/frontend/app.js:980-992 | When the newest request settles, the held-back chat route is dropped if it drew and shown if it did not; nothing stays held or pending. |
| PagePlans.HeldWaitsIff | src/bike_routing_agent/frontend/app.js:2532-2542 | A step leaves a held route without a request to settle it exactly when it holds one back for a pending request that something newer has overtaken. |
| PagePlans.NothingIsHeldForEver | src/bike_routing_agent/frontend/app.js:2532-2542 | In every run without file imports a held route waits for the newest request, which is still under way. |
| PagePlans.HeardAbortsHoldNothing | src/bike_routing_agent/frontend/app.js:1350-1353 | With imports too, in every run in which an aborted request reports back before a message is answered. |
| PagePlans.AnswerIsLostIff | src/bike_routing_agent/frontend/app.js:2532-2542 | A chat route is neither drawn nor held exactly when its message was overtaken, no form request is pending and the newest plan is on the map. |
| PagePlans.HeldRouteOvertakesNewerMessage | src/bike_routing_agent/frontend/app.js:980-992 | That newest plan can be an older chat route that had been held back, so the newer message's route is lost. |
| EnvFile.UpdateEnvFile | src/bike_routing_agent/llm_setup.py:81-106 | The loop that pops from the remaining settings writes the text of `FileAfter`. |
| EnvFile.ReadEnvFile | src/bike_routing_agent/llm_setup.py:111-120 | The reader finds for every key the stripped value of its last live line, and no other key. |
| EnvLines.LineIsOfKeyIff | src/bike_routing_agent/llm_setup.py:92 | The editor takes a line for that of a key if and only if it is spaces, a `#` or none, spaces, the key and `=`; a key is a capital letter and then capitals, digits and underscores. |
| EnvLines.LineIsReadIff | src/bike_routing_agent/llm_setup.py:117 | The reader finds a value if and only if the line is spaces, the key, `=` and the value with spaces around it. |
| EnvLines.LineEndsAre | src/bike_routing_agent/llm_setup.py:88 | A text is one line exactly when it has none of the ten line ends of `str.splitlines`. |
| EnvFile.FileIsItsLinesIff | src/bike_routing_agent/llm_setup.py:81-106 | The written file, split again as splitlines does, has exactly the edited lines if and only if no value holds a line end of any kind. |
| EnvFile.LineEndSetsAnotherKey | src/bike_routing_agent/llm_setup.py:81-106 | A value with a line end in it sets whatever key follows, for every key and value. |
| EnvFile.UpdateIsRead | src/bike_routing_agent/llm_setup.py:81-120 | Reading after an update by one-line values gives every non-empty setting, none of the emptied keys and all others unchanged, but for a key with a live line after its first line, which is read as before. |
| EnvFile.UpdateIsReadIff | src/bike_routing_agent/llm_setup.py:81-120 | So an update is read back if and only if no live line comes after the key's first line, live or commented, or that line already says it. |
| EnvFile.OneLineIsNotShadowed | src/bike_routing_agent/llm_setup.py:81-106 | A key on at most one line, live or commented, is always updated. |
| EnvFile.SecondLineWins | src/bike_routing_agent/llm_setup.py:90-99 | A key on two lines keeps the second value whatever it is set to. |
| EnvFile.UpdatingAgainChangesNothing | src/bike_routing_agent/llm_setup.py:81-106 | The same update a second time leaves the file as it is, for every file. |
| EnvFile.OtherLinesStay | src/bike_routing_agent/llm_setup.py:81-106 | All other lines with something on them, comments included, stay in their order. |
| Stretches.Usable | src/bike_routing_agent/frontend/stretches.js:69-79 | The loop takes the stretches of `UsableFrom`. |
| Stretches.UsableInOrder | src/bike_routing_agent/frontend/stretches.js:69-79 | For any stretches input, the usable ones are inside the line, in order and without overlap. |
| Stretches.OrderedAreUsable | src/bike_routing_agent/frontend/stretches.js:69-79 | Of stretches that are so already, none is lost. |
| Stretches.Pieces | src/bike_routing_agent/frontend/stretches.js:99-125 | The loop that extends the last piece in place computes `PiecesOf` of the usable stretches. |
| Stretches.PiecesTile | src/bike_routing_agent/frontend/stretches.js:99-125 | Pieces are in order and disjoint, each holds exactly the vertices of its index range and the distances at its ends, and touching neighbours differ in class. |
| Stretches.PiecesKeepColours | src/bike_routing_agent/frontend/stretches.js:99-125 | Every step between vertices is drawn in a class exactly when a usable stretch of that class covers it. |
| Stretches.PiecesKeepLength | src/bike_routing_agent/frontend/stretches.js:99-125 | The length of the pieces, of one class or of all, equals that of the usable stretches. |
| Stretches.LegendAddsUp | src/bike_routing_agent/frontend/stretches.js:128-138 | The totals of the classes add up to what is coloured. |
| Stretches.AddUp | src/bike_routing_agent/frontend/stretches.js:132-133 | The loop over the pieces leaves for every class that occurs its total, and no other entry. |
| Stretches.LegendIs | src/bike_routing_agent/frontend/stretches.js:128-138 | The legend has exactly the classes of 25 m or more, each with its length and share, the largest first. |
| Stretches.Longest | src/bike_routing_agent/frontend/stretches.js:141-150 | The first of the longest notable pieces, or none when all are shorter than 300 m. |
| Waypoints.ClampedIsLeast | src/bike_routing_agent/frontend/pois.js:160-171 | The clamped share gives a point no farther than any point of the segment, one of no length included. |
| Waypoints.NearestOnRoute | src/bike_routing_agent/frontend/waypoints.js:105-126 | A point of the route no farther from the target than any point of any projected segment, and within reach; none exactly when all are out of reach. |
| StopPlaces.FoundIsInTheBox | src/bike_routing_agent/frontend/waypoints.js:105-126 | The point found lies in the box of its segment, whatever the map. |
| StopPlaces.FoundIsWhereItSays | src/bike_routing_agent/frontend/waypoints.js:105-126 | On a map that shows degrees evenly, the distance reported is the one from the target to the point reported. |
| Waypoints.AlongMeters | src/bike_routing_agent/frontend/pois.js:154-175 | The loop measures along the line to the nearest point, the first of several. |
| Waypoints.NearestEdgeIsNearest | src/bike_routing_agent/frontend/pois.js:154-175 | No point of the line is nearer to the place than the one measured to. |
| Waypoints.AlongIsOnTheLine | src/bike_routing_agent/frontend/pois.js:154-175 | A position lies between 0 and the length of the line. |
| StopPlaces.VertexLiesItsMetersAlong | src/bike_routing_agent/frontend/pois.js:154-175 | A vertex that no edge touches before the one that leads to it lies exactly the summed length of the edges up to it along the line. |
| Waypoints.InsertionIndex | src/bike_routing_agent/frontend/pois.js:182-191 | The loop finds one past the last stop not beyond the place, or the end without a route or with a stop that is only a name. |
| Waypoints.InsertingKeepsOrder | src/bike_routing_agent/frontend/pois.js:182-191 | A stop put in at that index leaves the positions along the route non-decreasing if and only if they were. |
| Waypoints.SuggestionFits | src/bike_routing_agent/frontend/waypoints.js:52-63 | What is suggested is on the menu and can be placed; the trip never gets more than MAX_VIA stops; a drag makes a stop exactly when one is suggested. |
| Waypoints.SuggestionKeepsOrder | src/bike_routing_agent/frontend/waypoints.js:52-78 | The suggested position keeps the stops in travel order along the line; for a drag, of the point where the route was grabbed. |
| Waypoints.UnplaceableGoesLast | src/bike_routing_agent/frontend/waypoints.js:52-63 | With a stop that is only a name, or no line, the new stop goes last. |
| StopPlaces.MenuIsInOrder | src/bike_routing_agent/frontend/waypoints.js:31-43 | The menu is the start, every position of a new stop in order while there are fewer than ten stops, and the end. |
| StopPlaces.LineIsRouteOrPlaces | src/bike_routing_agent/frontend/waypoints.js:57-61 | Stops are measured along the route drawn when it has two points, else along the places joined up when all are known, else along nothing. |
| StopPlaces.OnlyTheKeyChanges | src/bike_routing_agent/frontend/waypoints.js:132-142 | Adding a stop changes only what its key says: a tenth stop is the last that is taken, and without the new one the stops are those before. |

## Left out

- HTTP endpoints, provider builders, SQLite and file calls, logging: I/O and wiring. A file is its text, the database a map of rows.
- Sentence reading (chat/rules.py, chat/goals.py, chat/when.py) and the choice of an intent: many patterns; the chat graph takes their results as inputs, so any intent may come at any message.
- OpeningHours.ParseRule: starts from the words of a rule; the regular expression that cuts the rule into words is not part of the model.
- OpeningHours.Parse: starts from the rules as words; normalising the text, its length limit and cutting it into rules are not part of the model.
- JSON text, number formatting, base64 and the checkpoint serialiser: parameters with an inverse; for numbers, on those the printer gives back.
- PlanStream.Produce: a producer cancelled because the page went away is left out; nothing it puts is sent any more.
- EventStream: characters are Unicode scalar values; JavaScript counts a character outside the basic plane as two towards MAX_EVENT_CHARS.
- Trigonometry and floating-point rounding: reals, and abstract functions that keep the needed laws.
- WayMatching.MatchSegments: for ways on Earth and tolerances of at most 90 degrees of latitude; beyond that a grown box no longer means anything.
- XmlText.DecodeEscape: a numeric reference to a lone surrogate, which JavaScript can hold in a string, gives the replacement character here; escaped text has no such reference.
- ChatSaver.SqliteChatSaver.Restore: a row that decodes but has another shape than the one written (ids that are not text, pairs in place of a dict) counts as unreadable; Python would take some of these.
- ChatSaver.SqliteChatSaver.Load: drops such rows, some of which Python would load.
- CheckpointCodec.DecodeUndoesEncode: keys are compared as values, so `1` and `True` are two keys, while in Python they are one; a real dict never holds both.
- ChatExclusion.DropBreaksExclusionIff: for `max_sessions` of at least one (200 unless set otherwise), and for new sessions; those read from the file at start are not part of the run.
- ChatReplacement.ReplaceableIff: while the service knows the session; a message to a forgotten id starts a new session.
- ChatService.Service.Touch: the time a session was last used, the miss log, histories and summaries are not part of the model.
- ChatGraph: replies are modelled only as empty or not, and the kept messages, suggestions and the note of what changed are left out.
- ChatGraph.PlanningIsShort: rests on what nodes/geocode.py:66-75 does, that a place is asked about under the text it was given; the geocoder itself is not part of this model.
- PagePlans: opening a stored conversation, which may draw its last route, and the status texts are left out; the text and optimise tabs send their requests like the form.
- PagePlans.OlderNeverReplacesNewer: a file counts from when it was read, not from when it was chosen.
- EnvFile: how the text is read from and written to the disk, and file modes, are left out.
- Stretches: the lengths between vertices are taken as given and not negative; rendering of the legend is left out.
- Waypoints: labels, coordinate texts and the preview of a dragged stop are left out.
- GpxFile.WrittenIsReadBack: what a forecast adds to the header and before the track (notes and waypoints) is any list of elements other than tracks and routes; reading the waypoints back is left out.
- Scoring, optimiser, providers, weather, health and tracing: small expressions, or calls to services.
