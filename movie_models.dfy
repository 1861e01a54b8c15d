/** The catalog records of movies/models.py: Movie, Hall and Function
    (a showing of a movie in a hall), their choice sets, defaults and
    string forms. */
module MovieModels {
  import opened Wrappers
  import opened Text

  /** The 19 keys of Movie.GENRE_CHOICES. */
  datatype Genre =
    | Accion | Aventura | Animacion | Comedia | Crimen | Documental | Drama
    | Familia | Fantasia | Historia | Terror | Musica | Misterio | Romance
    | CienciaFiccion | Deportes | Suspenso | Guerra | Western

  function GenreKey(g: Genre): string {
    match g
    case Accion => "accion"
    case Aventura => "aventura"
    case Animacion => "animacion"
    case Comedia => "comedia"
    case Crimen => "crimen"
    case Documental => "documental"
    case Drama => "drama"
    case Familia => "familia"
    case Fantasia => "fantasia"
    case Historia => "historia"
    case Terror => "terror"
    case Musica => "musica"
    case Misterio => "misterio"
    case Romance => "romance"
    case CienciaFiccion => "ciencia_ficcion"
    case Deportes => "deportes"
    case Suspenso => "suspenso"
    case Guerra => "guerra"
    case Western => "western"
  }

  const GenreKeys: set<string> := {
    "accion", "aventura", "animacion", "comedia", "crimen", "documental", "drama",
    "familia", "fantasia", "historia", "terror", "musica", "misterio", "romance",
    "ciencia_ficcion", "deportes", "suspenso", "guerra", "western"
  }

  /** A `ChoiceField(choices=GENRE_CHOICES)` accepts exactly the 19 keys. */
  function ParseGenre(s: string): (r: Option<Genre>)
    ensures r.Some? <==> s in GenreKeys
    ensures r.Some? ==> GenreKey(r.value) == s
  {
    if s == "accion" then Some(Accion)
    else if s == "aventura" then Some(Aventura)
    else if s == "animacion" then Some(Animacion)
    else if s == "comedia" then Some(Comedia)
    else if s == "crimen" then Some(Crimen)
    else if s == "documental" then Some(Documental)
    else if s == "drama" then Some(Drama)
    else if s == "familia" then Some(Familia)
    else if s == "fantasia" then Some(Fantasia)
    else if s == "historia" then Some(Historia)
    else if s == "terror" then Some(Terror)
    else if s == "musica" then Some(Musica)
    else if s == "misterio" then Some(Misterio)
    else if s == "romance" then Some(Romance)
    else if s == "ciencia_ficcion" then Some(CienciaFiccion)
    else if s == "deportes" then Some(Deportes)
    else if s == "suspenso" then Some(Suspenso)
    else if s == "guerra" then Some(Guerra)
    else if s == "western" then Some(Western)
    else None
  }

  lemma GenreRoundTrip(g: Genre)
    ensures GenreKey(g) in GenreKeys && ParseGenre(GenreKey(g)) == Some(g)
  {
  }

  /** Function.LANGUAGE_CHOICES. */
  datatype Language = Subtitulada | Doblada

  function LanguageKey(l: Language): string {
    match l
    case Subtitulada => "subtitulada"
    case Doblada => "doblada"
  }

  function ParseLanguage(s: string): (r: Option<Language>)
    ensures r.Some? <==> s in {"subtitulada", "doblada"}
    ensures r.Some? ==> LanguageKey(r.value) == s
  {
    if s == "subtitulada" then Some(Subtitulada)
    else if s == "doblada" then Some(Doblada)
    else None
  }

  /** Function.FORMAT_CHOICES. */
  datatype Format = TwoD | ThreeD | Imax

  function FormatKey(f: Format): string {
    match f
    case TwoD => "2D"
    case ThreeD => "3D"
    case Imax => "IMAX"
  }

  function ParseFormat(s: string): (r: Option<Format>)
    ensures r.Some? <==> s in {"2D", "3D", "IMAX"}
    ensures r.Some? ==> FormatKey(r.value) == s
  {
    if s == "2D" then Some(TwoD)
    else if s == "3D" then Some(ThreeD)
    else if s == "IMAX" then Some(Imax)
    else None
  }

  /** A `DateField` value (Python's `datetime.date`). */
  datatype Date = Date(year: nat, month: nat, day: nat)

  predicate LeapYear(y: nat) {
    y % 4 == 0 && (y % 100 != 0 || y % 400 == 0)
  }

  function DaysInMonth(y: nat, m: nat): nat {
    if m == 2 then (if LeapYear(y) then 29 else 28)
    else if m in {4, 6, 9, 11} then 30
    else 31
  }

  /** The dates Python can represent: years 1 to 9999. */
  predicate ValidDate(d: Date) {
    1 <= d.year <= 9999 && 1 <= d.month <= 12 && 1 <= d.day <= DaysInMonth(d.year, d.month)
  }

  /** Python's `<` on dates: chronological, i.e. lexicographic on (year, month, day). */
  predicate DateBefore(a: Date, b: Date) {
    a.year < b.year || (a.year == b.year && (a.month < b.month || (a.month == b.month && a.day < b.day)))
  }

  /** A `TimeField` value (Python's `datetime.time`, whole seconds). */
  datatype Time = Time(hour: nat, minute: nat, second: nat)

  predicate ValidTime(t: Time) {
    t.hour < 24 && t.minute < 60 && t.second < 60
  }

  /** `datetime.time()`: the default of both Function time fields. */
  const Midnight := Time(0, 0, 0)

  function SecondOfDay(t: Time): nat {
    t.hour * 3600 + t.minute * 60 + t.second
  }

  /** `str(date)`: ISO form `YYYY-MM-DD`. */
  function DateString(d: Date): string {
    ZeroPad(d.year, 4) + "-" + ZeroPad(d.month, 2) + "-" + ZeroPad(d.day, 2)
  }

  /** `str(time)`: ISO form `HH:MM:SS`. */
  function TimeString(t: Time): string {
    ZeroPad(t.hour, 2) + ":" + ZeroPad(t.minute, 2) + ":" + ZeroPad(t.second, 2)
  }

  function ParseDate(s: string): Option<Date> {
    if |s| == 10 && s[4] == '-' && s[7] == '-'
       && AllDigits(s[..4]) && AllDigits(s[5..7]) && AllDigits(s[8..])
    then Some(Date(ParseDigits(s[..4]), ParseDigits(s[5..7]), ParseDigits(s[8..])))
    else None
  }

  function ParseTime(s: string): Option<Time> {
    if |s| == 8 && s[2] == ':' && s[5] == ':'
       && AllDigits(s[..2]) && AllDigits(s[3..5]) && AllDigits(s[6..])
    then Some(Time(ParseDigits(s[..2]), ParseDigits(s[3..5]), ParseDigits(s[6..])))
    else None
  }

  lemma DateStringRoundTrip(d: Date)
    requires ValidDate(d)
    ensures |DateString(d)| == 10 && ParseDate(DateString(d)) == Some(d)
  {
    assert Pow10(4) == 10000 && Pow10(2) == 100;
    ZeroPadLength(d.year, 4);
    ZeroPadLength(d.month, 2);
    ZeroPadLength(d.day, 2);
    ParseZeroPad(d.year, 4);
    ParseZeroPad(d.month, 2);
    ParseZeroPad(d.day, 2);
    var s := DateString(d);
    assert s[..4] == ZeroPad(d.year, 4);
    assert s[5..7] == ZeroPad(d.month, 2);
    assert s[8..] == ZeroPad(d.day, 2);
  }

  lemma TimeStringRoundTrip(t: Time)
    requires ValidTime(t)
    ensures |TimeString(t)| == 8 && ParseTime(TimeString(t)) == Some(t)
  {
    assert Pow10(2) == 100;
    ZeroPadLength(t.hour, 2);
    ZeroPadLength(t.minute, 2);
    ZeroPadLength(t.second, 2);
    ParseZeroPad(t.hour, 2);
    ParseZeroPad(t.minute, 2);
    ParseZeroPad(t.second, 2);
    var s := TimeString(t);
    assert s[..2] == ZeroPad(t.hour, 2);
    assert s[3..5] == ZeroPad(t.minute, 2);
    assert s[6..] == ZeroPad(t.second, 2);
  }

  datatype Movie = Movie(
    title: string,
    poster: Option<string>,
    synopsis: string,
    duration: int,
    genre: Genre,
    classification: Option<string>,
    trailerUrl: Option<string>,
    dateRelease: Date,
    dateFinish: Date,
    available: bool)

  datatype Hall = Hall(name: string, totalSeats: int, available: bool)

  /** A showing: `movie` and `hall` are foreign keys (row ids). Prices are
      exact decimals, modelled as reals. */
  datatype Function = Function(
    movie: nat,
    functionDate: Date,
    functionTimeStart: Time,
    functionTimeEnd: Time,
    price: real,
    language: Language,
    format: Format,
    hall: nat)

  /** `Movie(...)` with `available` left to its model default. */
  function NewMovie(title: string, poster: Option<string>, synopsis: string, duration: int,
                    genre: Genre, classification: Option<string>, trailerUrl: Option<string>,
                    dateRelease: Date, dateFinish: Date): (m: Movie)
    ensures m.available && m.title == title && m.dateRelease == dateRelease && m.dateFinish == dateFinish
  {
    Movie(title, poster, synopsis, duration, genre, classification, trailerUrl, dateRelease, dateFinish, true)
  }

  /** `Hall(...)` with `available` left to its model default. */
  function NewHall(name: string, totalSeats: int): (h: Hall)
    ensures h.available && h.name == name && h.totalSeats == totalSeats
  {
    Hall(name, totalSeats, true)
  }

  /** `Function(...)` with both times left to their model default. */
  function NewFunction(movie: nat, functionDate: Date, price: real, language: Language,
                       format: Format, hall: nat): (f: Function)
    ensures f.functionTimeStart == Midnight && f.functionTimeEnd == Midnight
    ensures SecondOfDay(f.functionTimeStart) == 0 && SecondOfDay(f.functionTimeEnd) == 0
  {
    Function(movie, functionDate, Midnight, Midnight, price, language, format, hall)
  }

  /** `str(Movie)`: the title. */
  function MovieStr(m: Movie): (s: string)
    ensures s == m.title
  {
    m.title
  }

  /** `str(Hall)`: the name. */
  function HallStr(h: Hall): (s: string)
    ensures s == h.name
  {
    h.name
  }

  /** `str(Function)`: `"<movie title> - <hall name> - <date> <start>"`;
      `movie` and `hall` are the rows its foreign keys point to. */
  function FunctionStr(f: Function, movie: Movie, hall: Hall): string {
    MovieStr(movie) + " - " + HallStr(hall) + " - " + DateString(f.functionDate) + " " + TimeString(f.functionTimeStart)
  }

  /** The rendering can be read back: the movie's title, " - ", the hall's
      name, " - ", then 19 characters giving the date and start time again. */
  lemma FunctionStrParts(f: Function, movie: Movie, hall: Hall)
    requires ValidDate(f.functionDate) && ValidTime(f.functionTimeStart)
    ensures var s := FunctionStr(f, movie, hall);
      && |s| == |movie.title| + |hall.name| + 25
      && s[..|movie.title|] == movie.title
      && s[|movie.title|..|movie.title| + 3] == " - "
      && s[|movie.title| + 3..|movie.title| + 3 + |hall.name|] == hall.name
      && s[|movie.title| + 3 + |hall.name|..|movie.title| + 6 + |hall.name|] == " - "
      && s[|s| - 19..|s| - 9] == DateString(f.functionDate)
      && ParseDate(s[|s| - 19..|s| - 9]) == Some(f.functionDate)
      && s[|s| - 9] == ' '
      && ParseTime(s[|s| - 8..]) == Some(f.functionTimeStart)
  {
    DateStringRoundTrip(f.functionDate);
    TimeStringRoundTrip(f.functionTimeStart);
    var s := FunctionStr(f, movie, hall);
    var head := movie.title + " - " + hall.name + " - ";
    assert s == head + DateString(f.functionDate) + " " + TimeString(f.functionTimeStart);
    assert s[|s| - 8..] == TimeString(f.functionTimeStart);
    assert s[|s| - 19..|s| - 9] == DateString(f.functionDate);
  }
}
