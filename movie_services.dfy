/** The upload checks of movies/services.py: existence queries over the
    catalog tables that raise a validation error on a match and change
    nothing. A table is a map from row id to row. */
module MovieServices {
  import opened Wrappers
  import opened MovieModels

  datatype UploadError =
    | MovieAlreadyLoaded     // "Esta película ya ha sido cargada"
    | HallAlreadyCreated     // "Esta sala ya ha sido creada"
    | FunctionRegistered     // "Esta función ya se ha registrado en el sistema"
    | FunctionOverlaps       // "El horario de esta función se superpone con otra."

  predicate TitleTaken(movies: map<nat, Movie>, title: string) {
    exists id :: id in movies && movies[id].title == title
  }

  predicate HallNameTaken(halls: map<nat, Hall>, name: string) {
    exists id :: id in halls && halls[id].name == name
  }

  /** `check_movie_upload`: `None` when it returns normally. */
  function CheckMovieUpload(movies: map<nat, Movie>, title: string): (r: Option<UploadError>)
    ensures r == None <==> !TitleTaken(movies, title)
    ensures r != None ==> r == Some(MovieAlreadyLoaded)
  {
    if title in (set id | id in movies :: movies[id].title) then Some(MovieAlreadyLoaded) else None
  }

  /** `check_hall_upload`. */
  function CheckHallUpload(halls: map<nat, Hall>, name: string): (r: Option<UploadError>)
    ensures r == None <==> !HallNameTaken(halls, name)
    ensures r != None ==> r == Some(HallAlreadyCreated)
  {
    if name in (set id | id in halls :: halls[id].name) then Some(HallAlreadyCreated) else None
  }

  /** Once a movie is stored, uploading its title again is refused. */
  lemma MovieUploadRefusedAfterInsert(movies: map<nat, Movie>, id: nat, m: Movie)
    ensures CheckMovieUpload(movies[id := m], m.title) == Some(MovieAlreadyLoaded)
  {
    assert id in movies[id := m];
  }

  /** Once a hall is stored, creating it again is refused. */
  lemma HallUploadRefusedAfterInsert(halls: map<nat, Hall>, id: nat, h: Hall)
    ensures CheckHallUpload(halls[id := h], h.name) == Some(HallAlreadyCreated)
  {
    assert id in halls[id := h];
  }

  /** The first query of `check_function_upload`: every listed field equal. */
  predicate SameFunction(f: Function, movie: nat, hall: nat, date: Date, start: Time, end: Time,
                         language: Language, format: Format) {
    f.movie == movie && f.hall == hall && f.functionTimeStart == start && f.functionDate == date
    && f.functionTimeEnd == end && f.language == language && f.format == format
  }

  /** The second query: same hall, date, start and end. */
  predicate SameWindow(f: Function, hall: nat, date: Date, start: Time, end: Time) {
    f.hall == hall && f.functionDate == date && f.functionTimeStart == start && f.functionTimeEnd == end
  }

  /** `check_function_upload` as written (without its `function=` filter,
      which names no field of Function). */
  function CheckFunctionUpload(functions: map<nat, Function>, movie: nat, hall: nat, date: Date,
                               start: Time, end: Time, language: Language, format: Format): (r: Option<UploadError>)
    ensures r == Some(FunctionRegistered) <==>
      exists id :: id in functions && SameFunction(functions[id], movie, hall, date, start, end, language, format)
    ensures r == Some(FunctionOverlaps) <==>
      && (forall id :: id in functions ==> !SameFunction(functions[id], movie, hall, date, start, end, language, format))
      && (exists id :: id in functions && SameWindow(functions[id], hall, date, start, end))
    ensures r == None || r == Some(FunctionRegistered) || r == Some(FunctionOverlaps)
  {
    if exists id :: id in functions && SameFunction(functions[id], movie, hall, date, start, end, language, format) then
      Some(FunctionRegistered)
    else if exists id :: id in functions && SameWindow(functions[id], hall, date, start, end) then
      Some(FunctionOverlaps)
    else
      None
  }

  /** Taken together, the two queries reject exactly an identical time
      window in the same hall on the same date. */
  lemma FunctionUploadRejectsExactWindow(functions: map<nat, Function>, movie: nat, hall: nat, date: Date,
                                         start: Time, end: Time, language: Language, format: Format)
    ensures CheckFunctionUpload(functions, movie, hall, date, start, end, language, format) != None <==>
      exists id :: id in functions && SameWindow(functions[id], hall, date, start, end)
  {
    if exists id :: id in functions && SameFunction(functions[id], movie, hall, date, start, end, language, format) {
      var id :| id in functions && SameFunction(functions[id], movie, hall, date, start, end, language, format);
      assert SameWindow(functions[id], hall, date, start, end);
    }
  }

  /** The showing of movies/tests.py: Sala 1 on 2024-05-20 from 18:00 to 20:30. */
  const ExistingShowing := Function(1, Date(2024, 5, 20), Time(18, 0, 0), Time(20, 30, 0), 10.0, Subtitulada, TwoD, 1)

  /** As written, a showing from 19:00 to 21:00 in the same hall on the same
      date passes the check although both windows share 19:00-20:30. */
  lemma PartialOverlapAccepted()
    ensures Overlaps(ExistingShowing, 1, Date(2024, 5, 20), Time(19, 0, 0), Time(21, 0, 0))
    ensures CheckFunctionUpload(map[1 := ExistingShowing], 1, 1, Date(2024, 5, 20),
                                Time(19, 0, 0), Time(21, 0, 0), Subtitulada, TwoD) == None
  {
    var functions := map[1 := ExistingShowing];
    assert forall id :: id in functions ==> id == 1;
  }

  /** Two showings in one hall on one date overlap when their half-open
      time windows intersect or are the same window (so two showings left
      at the midnight-to-midnight default still clash). */
  predicate Overlaps(f: Function, hall: nat, date: Date, start: Time, end: Time) {
    f.hall == hall && f.functionDate == date
    && ((f.functionTimeStart == start && f.functionTimeEnd == end)
        || (SecondOfDay(start) < SecondOfDay(f.functionTimeEnd)
            && SecondOfDay(f.functionTimeStart) < SecondOfDay(end)))
  }

  /** No two stored showings in the same hall overlap. */
  ghost predicate NoOverlaps(functions: map<nat, Function>) {
    forall i, j :: i in functions && j in functions && i != j ==>
      !Overlaps(functions[i], functions[j].hall, functions[j].functionDate,
                functions[j].functionTimeStart, functions[j].functionTimeEnd)
  }

  /** The check evidently intended by the comment "evitar solapamiento de
      funciones en la misma sala" and by movies/tests.py: an identical
      showing is reported as before, and any intersecting window in the
      same hall and date is refused. */
  function CheckFunctionUploadIntended(functions: map<nat, Function>, movie: nat, hall: nat, date: Date,
                                       start: Time, end: Time, language: Language, format: Format): (r: Option<UploadError>)
    ensures r == None <==> forall id :: id in functions ==>
      !SameFunction(functions[id], movie, hall, date, start, end, language, format)
      && !Overlaps(functions[id], hall, date, start, end)
  {
    if exists id :: id in functions && SameFunction(functions[id], movie, hall, date, start, end, language, format) then
      Some(FunctionRegistered)
    else if exists id :: id in functions && Overlaps(functions[id], hall, date, start, end) then
      Some(FunctionOverlaps)
    else
      None
  }

  /** A showing the intended check accepts keeps the hall schedule free of
      overlaps when it is stored under a fresh id. */
  lemma IntendedCheckKeepsSchedule(functions: map<nat, Function>, id: nat, f: Function)
    requires NoOverlaps(functions) && id !in functions
    requires CheckFunctionUploadIntended(functions, f.movie, f.hall, f.functionDate, f.functionTimeStart,
                                         f.functionTimeEnd, f.language, f.format) == None
    ensures NoOverlaps(functions[id := f])
  {
    var fs := functions[id := f];
    forall i, j | i in fs && j in fs && i != j
      ensures !Overlaps(fs[i], fs[j].hall, fs[j].functionDate, fs[j].functionTimeStart, fs[j].functionTimeEnd)
    {
      if i == id {
        assert !Overlaps(functions[j], f.hall, f.functionDate, f.functionTimeStart, f.functionTimeEnd);
      } else if j == id {
        assert !Overlaps(functions[i], f.hall, f.functionDate, f.functionTimeStart, f.functionTimeEnd);
      }
    }
  }

  /** The intended check refuses every showing the check as written
      refuses. */
  lemma IntendedCheckRefusesWhatWrittenRefuses(functions: map<nat, Function>, movie: nat, hall: nat, date: Date,
                                               start: Time, end: Time, language: Language, format: Format)
    requires CheckFunctionUpload(functions, movie, hall, date, start, end, language, format) != None
    ensures CheckFunctionUploadIntended(functions, movie, hall, date, start, end, language, format) != None
  {
    FunctionUploadRejectsExactWindow(functions, movie, hall, date, start, end, language, format);
    var id :| id in functions && SameWindow(functions[id], hall, date, start, end);
    assert Overlaps(functions[id], hall, date, start, end);
  }

  /** The intended check refuses the overlapping showing of movies/tests.py. */
  lemma IntendedCheckRefusesPartialOverlap()
    ensures CheckFunctionUploadIntended(map[1 := ExistingShowing], 1, 1, Date(2024, 5, 20),
                                        Time(19, 0, 0), Time(21, 0, 0), Subtitulada, TwoD) == Some(FunctionOverlaps)
  {
    var functions := map[1 := ExistingShowing];
    assert 1 in functions && Overlaps(functions[1], 1, Date(2024, 5, 20), Time(19, 0, 0), Time(21, 0, 0));
  }
}
