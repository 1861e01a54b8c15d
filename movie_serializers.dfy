/** The serializers of movies/serializers.py: field validation and the
    `validate` checks against the stored rows, row creation, and the
    `update` loops that `setattr` each supplied attribute on an instance.
    The tables live in a `Catalog` object, the in-memory image of the
    Movie, Hall and Function tables. */
module MovieSerializers {
  import opened Wrappers
  import opened MovieModels
  import MovieServices

  // ---------------------------------------------------------------- Hall

  datatype HallError =
    | HallNameTooLong        // CharField(max_length=100)
    | HallNameExists         // "El nombre de la sala ya existe"
    | HallSeatsNotPositive   // "El numero de asientos debe ser mayor que 0"

  /** The request body of a hall; `available` may be omitted. */
  datatype HallInput = HallInput(name: string, totalSeats: int, available: Option<bool>)

  const HallNameMaxLength := 100

  /** `HallSerializer(data=...).is_valid()`: field checks, then `validate`.
      On success the validated hall, with `available` defaulting to true. */
  function ValidateHall(halls: map<nat, Hall>, input: HallInput): (r: Result<Hall, HallError>)
    ensures r == Err(HallNameTooLong) <==> |input.name| > HallNameMaxLength
    ensures r == Err(HallNameExists) <==>
      |input.name| <= HallNameMaxLength && MovieServices.HallNameTaken(halls, input.name)
    ensures r == Err(HallSeatsNotPositive) <==>
      |input.name| <= HallNameMaxLength && !MovieServices.HallNameTaken(halls, input.name) && input.totalSeats <= 0
    ensures r.Ok? ==> r.value == Hall(input.name, input.totalSeats, input.available.GetOr(true))
  {
    if |input.name| > HallNameMaxLength then Err(HallNameTooLong)
    else if MovieServices.CheckHallUpload(halls, input.name).Some? then Err(HallNameExists)
    else if input.totalSeats <= 0 then Err(HallSeatsNotPositive)
    else Ok(Hall(input.name, input.totalSeats, input.available.GetOr(true)))
  }

  /** A hall accepted by the serializer has a positive seat count and a
      name no stored hall carries. */
  lemma ValidHallIsNewAndPositive(halls: map<nat, Hall>, input: HallInput)
    requires ValidateHall(halls, input).Ok?
    ensures var h := ValidateHall(halls, input).value;
      h.totalSeats > 0 && forall id :: id in halls ==> halls[id].name != h.name
  {
  }

  datatype HallField = HallNameField | HallTotalSeatsField | HallAvailableField

  /** One `(attr, value)` pair of `validated_data` for a hall. */
  datatype HallUpdate = SetHallName(name: string) | SetHallTotalSeats(totalSeats: int) | SetHallAvailable(available: bool)

  function HallFieldOf(u: HallUpdate): HallField {
    match u
    case SetHallName(_) => HallNameField
    case SetHallTotalSeats(_) => HallTotalSeatsField
    case SetHallAvailable(_) => HallAvailableField
  }

  /** The value `h` holds in field `f`, written as the pair that would set it. */
  function HallValueOf(h: Hall, f: HallField): (u: HallUpdate)
    ensures HallFieldOf(u) == f
  {
    match f
    case HallNameField => SetHallName(h.name)
    case HallTotalSeatsField => SetHallTotalSeats(h.totalSeats)
    case HallAvailableField => SetHallAvailable(h.available)
  }

  /** `setattr(instance, attr, value)`: the named field takes the value and
      every other field keeps its own. */
  function SetHallAttr(h: Hall, u: HallUpdate): (r: Hall)
    ensures forall f :: HallValueOf(r, f) == if f == HallFieldOf(u) then u else HallValueOf(h, f)
  {
    match u
    case SetHallName(v) => h.(name := v)
    case SetHallTotalSeats(v) => h.(totalSeats := v)
    case SetHallAvailable(v) => h.(available := v)
  }

  /** The keys of a dict are distinct. */
  predicate DistinctHallFields(data: seq<HallUpdate>) {
    forall i, j :: 0 <= i < j < |data| ==> HallFieldOf(data[i]) != HallFieldOf(data[j])
  }

  predicate HallFieldSupplied(data: seq<HallUpdate>, f: HallField) {
    exists i :: 0 <= i < |data| && HallFieldOf(data[i]) == f
  }

  /** `HallSerializer.update`: every supplied attribute has its supplied
      value and every other attribute is unchanged. */
  method UpdateHall(instance: Hall, validatedData: seq<HallUpdate>) returns (updated: Hall)
    requires DistinctHallFields(validatedData)
    ensures forall i :: 0 <= i < |validatedData| ==>
      HallValueOf(updated, HallFieldOf(validatedData[i])) == validatedData[i]
    ensures forall f :: !HallFieldSupplied(validatedData, f) ==> HallValueOf(updated, f) == HallValueOf(instance, f)
  {
    updated := instance;
    var i := 0;
    while i < |validatedData|
      invariant 0 <= i <= |validatedData|
      invariant forall k :: 0 <= k < i ==> HallValueOf(updated, HallFieldOf(validatedData[k])) == validatedData[k]
      invariant forall f :: (forall k :: 0 <= k < i ==> HallFieldOf(validatedData[k]) != f) ==>
        HallValueOf(updated, f) == HallValueOf(instance, f)
    {
      updated := SetHallAttr(updated, validatedData[i]);
      i := i + 1;
    }
  }

  // ---------------------------------------------------------------- Movie

  datatype MovieError =
    | MovieTitleTooLong          // CharField(max_length=255)
    | MovieGenreNotAChoice       // ChoiceField(choices=GENRE_CHOICES)
    | MovieClassificationTooLong // CharField(max_length=50)
    | MovieTitleExists           // "Esta pelicula ya existe"
    | MovieDatesReversed         // "La fecha de fin no puede ser anterior a la fecha de inicio"

  /** The request body of a movie; `genre` is the raw choice key and
      `available` may be omitted. */
  datatype MovieInput = MovieInput(
    title: string,
    poster: Option<string>,
    synopsis: string,
    duration: int,
    genre: string,
    classification: Option<string>,
    trailerUrl: Option<string>,
    dateRelease: Date,
    dateFinish: Date,
    available: Option<bool>)

  const MovieTitleMaxLength := 255
  const ClassificationMaxLength := 50

  /** A classification, when given, fits its column. */
  predicate ClassificationFits(c: Option<string>) {
    c.Some? ==> |c.value| <= ClassificationMaxLength
  }

  /** `MovieSerializer(data=...).is_valid()`: field checks, then `validate`. */
  function ValidateMovie(movies: map<nat, Movie>, input: MovieInput): (r: Result<Movie, MovieError>)
    ensures r.Ok? <==>
      && |input.title| <= MovieTitleMaxLength
      && input.genre in GenreKeys
      && ClassificationFits(input.classification)
      && !MovieServices.TitleTaken(movies, input.title)
      && !DateBefore(input.dateFinish, input.dateRelease)
    ensures r == Err(MovieClassificationTooLong) ==> !ClassificationFits(input.classification)
    ensures r == Err(MovieDatesReversed) ==> DateBefore(input.dateFinish, input.dateRelease)
    ensures r == Err(MovieTitleExists) ==> MovieServices.TitleTaken(movies, input.title)
    ensures r.Ok? ==> var m := r.value;
      && m.title == input.title && GenreKey(m.genre) == input.genre
      && m.dateRelease == input.dateRelease && m.dateFinish == input.dateFinish
      && m.available == input.available.GetOr(true)
      && m.poster == input.poster && m.synopsis == input.synopsis && m.duration == input.duration
      && m.classification == input.classification && m.trailerUrl == input.trailerUrl
  {
    if |input.title| > MovieTitleMaxLength then Err(MovieTitleTooLong)
    else match ParseGenre(input.genre)
      case None => Err(MovieGenreNotAChoice)
      case Some(genre) =>
        if !ClassificationFits(input.classification) then Err(MovieClassificationTooLong)
        else if MovieServices.CheckMovieUpload(movies, input.title).Some? then Err(MovieTitleExists)
        else if DateBefore(input.dateFinish, input.dateRelease) then Err(MovieDatesReversed)
        else Ok(Movie(input.title, input.poster, input.synopsis, input.duration, genre, input.classification,
                      input.trailerUrl, input.dateRelease, input.dateFinish, input.available.GetOr(true)))
  }

  /** Release and finish on the same date are accepted. */
  lemma SameDayRunAccepted(movies: map<nat, Movie>, input: MovieInput)
    requires |input.title| <= MovieTitleMaxLength && input.genre in GenreKeys
    requires ClassificationFits(input.classification)
    requires !MovieServices.TitleTaken(movies, input.title)
    requires input.dateRelease == input.dateFinish
    ensures ValidateMovie(movies, input).Ok?
  {
  }

  datatype MovieField =
    | TitleField | PosterField | SynopsisField | DurationField | GenreField
    | ClassificationField | TrailerUrlField | DateReleaseField | DateFinishField | MovieAvailableField

  datatype MovieUpdate =
    | SetTitle(title: string)
    | SetPoster(poster: Option<string>)
    | SetSynopsis(synopsis: string)
    | SetDuration(duration: int)
    | SetGenre(genre: Genre)
    | SetClassification(classification: Option<string>)
    | SetTrailerUrl(trailerUrl: Option<string>)
    | SetDateRelease(dateRelease: Date)
    | SetDateFinish(dateFinish: Date)
    | SetMovieAvailable(available: bool)

  function MovieFieldOf(u: MovieUpdate): MovieField {
    match u
    case SetTitle(_) => TitleField
    case SetPoster(_) => PosterField
    case SetSynopsis(_) => SynopsisField
    case SetDuration(_) => DurationField
    case SetGenre(_) => GenreField
    case SetClassification(_) => ClassificationField
    case SetTrailerUrl(_) => TrailerUrlField
    case SetDateRelease(_) => DateReleaseField
    case SetDateFinish(_) => DateFinishField
    case SetMovieAvailable(_) => MovieAvailableField
  }

  function MovieValueOf(m: Movie, f: MovieField): (u: MovieUpdate)
    ensures MovieFieldOf(u) == f
  {
    match f
    case TitleField => SetTitle(m.title)
    case PosterField => SetPoster(m.poster)
    case SynopsisField => SetSynopsis(m.synopsis)
    case DurationField => SetDuration(m.duration)
    case GenreField => SetGenre(m.genre)
    case ClassificationField => SetClassification(m.classification)
    case TrailerUrlField => SetTrailerUrl(m.trailerUrl)
    case DateReleaseField => SetDateRelease(m.dateRelease)
    case DateFinishField => SetDateFinish(m.dateFinish)
    case MovieAvailableField => SetMovieAvailable(m.available)
  }

  function SetMovieAttr(m: Movie, u: MovieUpdate): (r: Movie)
    ensures forall f :: MovieValueOf(r, f) == if f == MovieFieldOf(u) then u else MovieValueOf(m, f)
  {
    match u
    case SetTitle(v) => m.(title := v)
    case SetPoster(v) => m.(poster := v)
    case SetSynopsis(v) => m.(synopsis := v)
    case SetDuration(v) => m.(duration := v)
    case SetGenre(v) => m.(genre := v)
    case SetClassification(v) => m.(classification := v)
    case SetTrailerUrl(v) => m.(trailerUrl := v)
    case SetDateRelease(v) => m.(dateRelease := v)
    case SetDateFinish(v) => m.(dateFinish := v)
    case SetMovieAvailable(v) => m.(available := v)
  }

  predicate DistinctMovieFields(data: seq<MovieUpdate>) {
    forall i, j :: 0 <= i < j < |data| ==> MovieFieldOf(data[i]) != MovieFieldOf(data[j])
  }

  predicate MovieFieldSupplied(data: seq<MovieUpdate>, f: MovieField) {
    exists i :: 0 <= i < |data| && MovieFieldOf(data[i]) == f
  }

  /** `MovieSerializer.update`. */
  method UpdateMovie(instance: Movie, validatedData: seq<MovieUpdate>) returns (updated: Movie)
    requires DistinctMovieFields(validatedData)
    ensures forall i :: 0 <= i < |validatedData| ==>
      MovieValueOf(updated, MovieFieldOf(validatedData[i])) == validatedData[i]
    ensures forall f :: !MovieFieldSupplied(validatedData, f) ==> MovieValueOf(updated, f) == MovieValueOf(instance, f)
  {
    updated := instance;
    var i := 0;
    while i < |validatedData|
      invariant 0 <= i <= |validatedData|
      invariant forall k :: 0 <= k < i ==> MovieValueOf(updated, MovieFieldOf(validatedData[k])) == validatedData[k]
      invariant forall f :: (forall k :: 0 <= k < i ==> MovieFieldOf(validatedData[k]) != f) ==>
        MovieValueOf(updated, f) == MovieValueOf(instance, f)
    {
      updated := SetMovieAttr(updated, validatedData[i]);
      i := i + 1;
    }
  }

  // ---------------------------------------------------------------- Function

  datatype FunctionError =
    | FunctionLanguageNotAChoice   // ChoiceField(choices=LANGUAGE_CHOICES)
    | FunctionFormatNotAChoice     // ChoiceField(choices=FORMAT_CHOICES)
    | FunctionMovieMissing         // "La pelicula no existe"
    | FunctionHallMissing          // "La sala no existe"
    | FunctionExists               // "Esta funcion ya existe"

  datatype FunctionInput = FunctionInput(
    movie: nat,
    hall: nat,
    functionDate: Date,
    functionTimeStart: Time,
    functionTimeEnd: Time,
    price: real,
    language: string,
    format: string)

  /** The duplicate query of `FunctionSerializer.validate`. */
  predicate FunctionSlotTaken(functions: map<nat, Function>, movie: nat, hall: nat, date: Date, start: Time) {
    exists id :: id in functions && functions[id].movie == movie && functions[id].hall == hall
      && functions[id].functionDate == date && functions[id].functionTimeStart == start
  }

  /** `FunctionSerializer(data=...).is_valid()`. */
  function ValidateFunction(movies: map<nat, Movie>, halls: map<nat, Hall>, functions: map<nat, Function>,
                            input: FunctionInput): (r: Result<Function, FunctionError>)
    ensures r.Ok? <==>
      && input.language in {"subtitulada", "doblada"} && input.format in {"2D", "3D", "IMAX"}
      && input.movie in movies && input.hall in halls
      && !FunctionSlotTaken(functions, input.movie, input.hall, input.functionDate, input.functionTimeStart)
    ensures r == Err(FunctionMovieMissing) ==> input.movie !in movies
    ensures r == Err(FunctionHallMissing) ==> input.movie in movies && input.hall !in halls
    ensures r == Err(FunctionExists) ==>
      FunctionSlotTaken(functions, input.movie, input.hall, input.functionDate, input.functionTimeStart)
    ensures r.Ok? ==> var f := r.value;
      && f.movie == input.movie && f.hall == input.hall && f.functionDate == input.functionDate
      && f.functionTimeStart == input.functionTimeStart && f.functionTimeEnd == input.functionTimeEnd
      && f.price == input.price && LanguageKey(f.language) == input.language && FormatKey(f.format) == input.format
  {
    match (ParseLanguage(input.language), ParseFormat(input.format))
    case (None, _) => Err(FunctionLanguageNotAChoice)
    case (_, None) => Err(FunctionFormatNotAChoice)
    case (Some(language), Some(format)) =>
      if input.movie !in movies then Err(FunctionMovieMissing)
      else if input.hall !in halls then Err(FunctionHallMissing)
      else if FunctionSlotTaken(functions, input.movie, input.hall, input.functionDate, input.functionTimeStart)
      then Err(FunctionExists)
      else Ok(Function(input.movie, input.functionDate, input.functionTimeStart, input.functionTimeEnd,
                       input.price, language, format, input.hall))
  }

  datatype FunctionField =
    | FnMovieField | FnDateField | FnStartField | FnEndField | FnPriceField
    | FnLanguageField | FnFormatField | FnHallField

  datatype FunctionUpdate =
    | SetFnMovie(movie: nat)
    | SetFnDate(functionDate: Date)
    | SetFnStart(functionTimeStart: Time)
    | SetFnEnd(functionTimeEnd: Time)
    | SetFnPrice(price: real)
    | SetFnLanguage(language: Language)
    | SetFnFormat(format: Format)
    | SetFnHall(hall: nat)

  function FunctionFieldOf(u: FunctionUpdate): FunctionField {
    match u
    case SetFnMovie(_) => FnMovieField
    case SetFnDate(_) => FnDateField
    case SetFnStart(_) => FnStartField
    case SetFnEnd(_) => FnEndField
    case SetFnPrice(_) => FnPriceField
    case SetFnLanguage(_) => FnLanguageField
    case SetFnFormat(_) => FnFormatField
    case SetFnHall(_) => FnHallField
  }

  function FunctionValueOf(fn: Function, f: FunctionField): (u: FunctionUpdate)
    ensures FunctionFieldOf(u) == f
  {
    match f
    case FnMovieField => SetFnMovie(fn.movie)
    case FnDateField => SetFnDate(fn.functionDate)
    case FnStartField => SetFnStart(fn.functionTimeStart)
    case FnEndField => SetFnEnd(fn.functionTimeEnd)
    case FnPriceField => SetFnPrice(fn.price)
    case FnLanguageField => SetFnLanguage(fn.language)
    case FnFormatField => SetFnFormat(fn.format)
    case FnHallField => SetFnHall(fn.hall)
  }

  function SetFunctionAttr(fn: Function, u: FunctionUpdate): (r: Function)
    ensures forall f :: FunctionValueOf(r, f) == if f == FunctionFieldOf(u) then u else FunctionValueOf(fn, f)
  {
    match u
    case SetFnMovie(v) => fn.(movie := v)
    case SetFnDate(v) => fn.(functionDate := v)
    case SetFnStart(v) => fn.(functionTimeStart := v)
    case SetFnEnd(v) => fn.(functionTimeEnd := v)
    case SetFnPrice(v) => fn.(price := v)
    case SetFnLanguage(v) => fn.(language := v)
    case SetFnFormat(v) => fn.(format := v)
    case SetFnHall(v) => fn.(hall := v)
  }

  predicate DistinctFunctionFields(data: seq<FunctionUpdate>) {
    forall i, j :: 0 <= i < j < |data| ==> FunctionFieldOf(data[i]) != FunctionFieldOf(data[j])
  }

  predicate FunctionFieldSupplied(data: seq<FunctionUpdate>, f: FunctionField) {
    exists i :: 0 <= i < |data| && FunctionFieldOf(data[i]) == f
  }

  /** `FunctionSerializer.update`. */
  method UpdateFunction(instance: Function, validatedData: seq<FunctionUpdate>) returns (updated: Function)
    requires DistinctFunctionFields(validatedData)
    ensures forall i :: 0 <= i < |validatedData| ==>
      FunctionValueOf(updated, FunctionFieldOf(validatedData[i])) == validatedData[i]
    ensures forall f :: !FunctionFieldSupplied(validatedData, f) ==>
      FunctionValueOf(updated, f) == FunctionValueOf(instance, f)
  {
    updated := instance;
    var i := 0;
    while i < |validatedData|
      invariant 0 <= i <= |validatedData|
      invariant forall k :: 0 <= k < i ==> FunctionValueOf(updated, FunctionFieldOf(validatedData[k])) == validatedData[k]
      invariant forall f :: (forall k :: 0 <= k < i ==> FunctionFieldOf(validatedData[k]) != f) ==>
        FunctionValueOf(updated, f) == FunctionValueOf(instance, f)
    {
      updated := SetFunctionAttr(updated, validatedData[i]);
      i := i + 1;
    }
  }

  // ---------------------------------------------------------------- tables

  /** The Movie, Hall and Function tables, with the next id each assigns. */
  class Catalog {
    var movies: map<nat, Movie>
    var halls: map<nat, Hall>
    var functions: map<nat, Function>
    var nextMovieId: nat
    var nextHallId: nat
    var nextFunctionId: nat

    ghost predicate Valid()
      reads this
    {
      && (forall id :: id in movies ==> id < nextMovieId)
      && (forall id :: id in halls ==> id < nextHallId)
      && (forall id :: id in functions ==> id < nextFunctionId)
    }

    constructor ()
      ensures Valid() && movies == map[] && halls == map[] && functions == map[]
    {
      movies, halls, functions := map[], map[], map[];
      nextMovieId, nextHallId, nextFunctionId := 1, 1, 1;
    }

    /** `HallSerializer.create`: `Hall.objects.create(**validated_data)`. */
    method CreateHall(h: Hall) returns (id: nat)
      requires Valid()
      modifies this
      ensures Valid() && id !in old(halls) && halls == old(halls)[id := h]
      ensures movies == old(movies) && functions == old(functions)
    {
      id := nextHallId;
      halls := halls[id := h];
      nextHallId := nextHallId + 1;
    }

    /** `MovieSerializer.create`. */
    method CreateMovie(m: Movie) returns (id: nat)
      requires Valid()
      modifies this
      ensures Valid() && id !in old(movies) && movies == old(movies)[id := m]
      ensures halls == old(halls) && functions == old(functions)
    {
      id := nextMovieId;
      movies := movies[id := m];
      nextMovieId := nextMovieId + 1;
    }

    /** `FunctionSerializer.create`. */
    method CreateFunction(f: Function) returns (id: nat)
      requires Valid()
      modifies this
      ensures Valid() && id !in old(functions) && functions == old(functions)[id := f]
      ensures movies == old(movies) && halls == old(halls)
    {
      id := nextFunctionId;
      functions := functions[id := f];
      nextFunctionId := nextFunctionId + 1;
    }

    /** `HallSerializer.update` on a stored row followed by `instance.save()`. */
    method SaveHallUpdate(id: nat, validatedData: seq<HallUpdate>)
      requires Valid() && id in halls && DistinctHallFields(validatedData)
      modifies this
      ensures Valid() && halls.Keys == old(halls.Keys)
      ensures forall other :: other in halls && other != id ==> halls[other] == old(halls[other])
      ensures forall i :: 0 <= i < |validatedData| ==>
        HallValueOf(halls[id], HallFieldOf(validatedData[i])) == validatedData[i]
      ensures forall f :: !HallFieldSupplied(validatedData, f) ==> HallValueOf(halls[id], f) == HallValueOf(old(halls[id]), f)
      ensures movies == old(movies) && functions == old(functions)
    {
      var updated := UpdateHall(halls[id], validatedData);
      halls := halls[id := updated];
    }

    /** `MovieSerializer.update` on a stored row followed by `instance.save()`. */
    method SaveMovieUpdate(id: nat, validatedData: seq<MovieUpdate>)
      requires Valid() && id in movies && DistinctMovieFields(validatedData)
      modifies this
      ensures Valid() && movies.Keys == old(movies.Keys)
      ensures forall other :: other in movies && other != id ==> movies[other] == old(movies[other])
      ensures forall i :: 0 <= i < |validatedData| ==>
        MovieValueOf(movies[id], MovieFieldOf(validatedData[i])) == validatedData[i]
      ensures forall f :: !MovieFieldSupplied(validatedData, f) ==> MovieValueOf(movies[id], f) == MovieValueOf(old(movies[id]), f)
      ensures halls == old(halls) && functions == old(functions)
    {
      var updated := UpdateMovie(movies[id], validatedData);
      movies := movies[id := updated];
    }

    /** `FunctionSerializer.update` on a stored row followed by `instance.save()`. */
    method SaveFunctionUpdate(id: nat, validatedData: seq<FunctionUpdate>)
      requires Valid() && id in functions && DistinctFunctionFields(validatedData)
      modifies this
      ensures Valid() && functions.Keys == old(functions.Keys)
      ensures forall other :: other in functions && other != id ==> functions[other] == old(functions[other])
      ensures forall i :: 0 <= i < |validatedData| ==>
        FunctionValueOf(functions[id], FunctionFieldOf(validatedData[i])) == validatedData[i]
      ensures forall f :: !FunctionFieldSupplied(validatedData, f) ==>
        FunctionValueOf(functions[id], f) == FunctionValueOf(old(functions[id]), f)
      ensures movies == old(movies) && halls == old(halls)
    {
      var updated := UpdateFunction(functions[id], validatedData);
      functions := functions[id := updated];
    }
  }
}
