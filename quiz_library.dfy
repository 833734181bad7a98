/** The in-memory quiz library of GameStateService: two fixed quizzes of five questions each. */
module QuizLibrary {
  import opened Models

  /** A question whose correct index names one of its options. */
  predicate WellFormed(q: Question)
  {
    0 <= q.correctIndex < |q.options|
  }

  /** `_quizLibrary`: quiz id -> its ordered question list. */
  function Library(): (lib: map<string, seq<Question>>)
    ensures lib.Keys == {"liebherr", "it"}
    ensures forall id :: id in lib ==> |lib[id]| == 5
    ensures forall id, i :: id in lib && 0 <= i < |lib[id]| ==>
              |lib[id][i].options| == 4 && WellFormed(lib[id][i])
  {
    map[
      "liebherr" := [
        Question("Wann wurde Liebherr gegründet?", ["1949", "1955", "1898", "1990"], 0),
        Question("Welches Produkt ist typisch für Liebherr?", ["Waschmaschinen", "Fahrräder", "Smartphones", "Kühlschränke"], 3),
        Question("In welchem Land hat Liebherr seinen Hauptsitz?", ["Schweiz", "Deutschland", "Österreich", "Italien"], 1),
        Question("Liebherr ist bekannt für ?", ["Lebensmittel", "Baumaschinen", "Software", "Bekleidung"], 1),
        Question("Welche Liebherr Geselschaft ist die größter der Gruppe?", ["Ehingen", "Oberopfingen", "Roßtock", "Bulle"], 0)
      ],
      "it" := [
        Question("Was bedeutet CPU?", ["Central Processing Unit", "Computer Personal Unit", "Central Print Unit", "Control Processing Unit"], 0),
        Question("Was ist HTML?", ["Programmiersprache", "Stylesheet", "Markup Language", "Datenbank"], 2),
        Question("Welches Protokoll nutzt das Web?", ["FTP", "SSH", "HTTP", "SMTP"], 2),
        Question("Was ist Git?", ["Versionskontrolle", "Programmiersprache", "Editor", "Betriebssystem"], 0),
        Question("Welche Sprache läuft im Browser?", ["Java", "C#", "JavaScript", "Python"], 2)
      ]
    ]
  }
}
