/** The display vocabulary for detector class names: the detector's fixed
    English-to-Portuguese table and the lookup that falls back to the class
    name itself. */
module Labels {
  import opened Wrappers
  import opened Text

  /** The translation table, one case per entry, keyed by lower-case English
      class name; `None` for a name that is not a key. The entries are the
      table's own, grouped by key length, so that a lookup compares a name
      only with the keys of its own length. */
  function Translations(key: string): Option<string> {
    match |key|
    case 2 => (
      match key
      case "tv" => Some("televisão")
      case _ => None)
    case 3 => (
      match key
      case "car" => Some("carro")
      case "bus" => Some("ônibus")
      case "cat" => Some("gato")
      case "dog" => Some("cachorro")
      case "cow" => Some("vaca")
      case "tie" => Some("gravata")
      case "cup" => Some("xícara")
      case "bed" => Some("cama")
      case _ => None)
    case 4 => (
      match key
      case "boat" => Some("barco")
      case "bird" => Some("pássaro")
      case "bear" => Some("urso")
      case "fork" => Some("garfo")
      case "bowl" => Some("tigela")
      case "cake" => Some("bolo")
      case "oven" => Some("forno")
      case "sink" => Some("pia")
      case "book" => Some("livro")
      case "vase" => Some("vaso")
      case _ => None)
    case 5 => (
      match key
      case "train" => Some("trem")
      case "truck" => Some("caminhão")
      case "bench" => Some("banco")
      case "horse" => Some("cavalo")
      case "sheep" => Some("ovelha")
      case "zebra" => Some("zebra")
      case "knife" => Some("faca")
      case "spoon" => Some("colher")
      case "apple" => Some("maçã")
      case "pizza" => Some("pizza")
      case "donut" => Some("rosquinha")
      case "chair" => Some("cadeira")
      case "couch" => Some("sofá")
      case "mouse" => Some("mouse")
      case "clock" => Some("relógio")
      case _ => None)
    case 6 => (
      match key
      case "person" => Some("pessoa")
      case "bottle" => Some("garrafa")
      case "banana" => Some("banana")
      case "orange" => Some("laranja")
      case "carrot" => Some("cenoura")
      case "toilet" => Some("vaso sanitário")
      case "laptop" => Some("laptop")
      case "remote" => Some("controle remoto")
      case _ => None)
    case 7 => (
      match key
      case "bicycle" => Some("bicicleta")
      case "giraffe" => Some("girafa")
      case "handbag" => Some("bolsa")
      case "hot dog" => Some("cachorro-quente")
      case "toaster" => Some("torradeira")
      case _ => None)
    case 8 => (
      match key
      case "airplane" => Some("avião")
      case "elephant" => Some("elefante")
      case "backpack" => Some("mochila")
      case "umbrella" => Some("guarda-chuva")
      case "suitcase" => Some("mala")
      case "sandwich" => Some("sanduíche")
      case "broccoli" => Some("brócolis")
      case "keyboard" => Some("teclado")
      case "scissors" => Some("tesoura")
      case _ => None)
    case 9 => (
      match key
      case "stop sign" => Some("placa de pare")
      case "microwave" => Some("micro-ondas")
      case _ => None)
    case 10 => (
      match key
      case "motorcycle" => Some("moto")
      case "wine glass" => Some("taça de vinho")
      case "cell phone" => Some("celular")
      case "teddy bear" => Some("ursinho de pelúcia")
      case "hair drier" => Some("secador de cabelo")
      case "toothbrush" => Some("escova de dentes")
      case _ => None)
    case 12 => (
      match key
      case "fire hydrant" => Some("hidrante")
      case "potted plant" => Some("planta")
      case "dining table" => Some("mesa de jantar")
      case "refrigerator" => Some("geladeira")
      case _ => None)
    case 13 => (
      match key
      case "traffic light" => Some("semáforo")
      case "parking meter" => Some("parquímetro")
      case _ => None)
    case _ => None
  }

  /** The table values that are also keys. */
  const IdentityEntries: set<string> := {"banana", "zebra", "pizza", "laptop", "mouse"}

  /** `translations.get(name.lower(), name)`: the table value for the
      lower-cased class name, or the name exactly as given. */
  function Translate(name: string): string {
    match Translations(Lower(name))
    case Some(v) => v
    case None => name
  }

  /** What the idempotence argument needs of a table value: it is lower case,
      and it is a key only if it is an identity entry mapped to itself. */
  predicate FixedValue(v: string) {
    IsLowerCase(v) &&
    (Translations(v).Some? ==> v in IdentityEntries && Translations(v) == Some(v))
  }

  // The table values, checked five entries at a time in table order (each
  // pair is named after its first and last key): first each value on its
  // own, then each key of those entries against its value.

  lemma ValuesPersonToAirplane()
    ensures FixedValue("pessoa") && FixedValue("bicicleta") && FixedValue("carro") && FixedValue("moto") && FixedValue("avião")
  {
  }

  lemma EntriesPersonToAirplane(key: string)
    requires key in {"person", "bicycle", "car", "motorcycle", "airplane"}
    ensures FixedValue(Translations(key).value)
  {
    ValuesPersonToAirplane();
  }

  lemma ValuesBusToTrafficLight()
    ensures FixedValue("ônibus") && FixedValue("trem") && FixedValue("caminhão") && FixedValue("barco") && FixedValue("semáforo")
  {
  }

  lemma EntriesBusToTrafficLight(key: string)
    requires key in {"bus", "train", "truck", "boat", "traffic light"}
    ensures FixedValue(Translations(key).value)
  {
    ValuesBusToTrafficLight();
  }

  lemma ValuesFireHydrantToBird()
    ensures FixedValue("hidrante") && FixedValue("placa de pare") && FixedValue("parquímetro") && FixedValue("banco") && FixedValue("pássaro")
  {
  }

  lemma EntriesFireHydrantToBird(key: string)
    requires key in {"fire hydrant", "stop sign", "parking meter", "bench", "bird"}
    ensures FixedValue(Translations(key).value)
  {
    ValuesFireHydrantToBird();
  }

  lemma ValuesCatToCow()
    ensures FixedValue("gato") && FixedValue("cachorro") && FixedValue("cavalo") && FixedValue("ovelha") && FixedValue("vaca")
  {
  }

  lemma EntriesCatToCow(key: string)
    requires key in {"cat", "dog", "horse", "sheep", "cow"}
    ensures FixedValue(Translations(key).value)
  {
    ValuesCatToCow();
  }

  lemma ValuesElephantToBackpack()
    ensures FixedValue("elefante") && FixedValue("urso") && FixedValue("zebra") && FixedValue("girafa") && FixedValue("mochila")
  {
  }

  lemma EntriesElephantToBackpack(key: string)
    requires key in {"elephant", "bear", "zebra", "giraffe", "backpack"}
    ensures FixedValue(Translations(key).value)
  {
    ValuesElephantToBackpack();
  }

  lemma ValuesUmbrellaToBottle()
    ensures FixedValue("guarda-chuva") && FixedValue("bolsa") && FixedValue("gravata") && FixedValue("mala") && FixedValue("garrafa")
  {
  }

  lemma EntriesUmbrellaToBottle(key: string)
    requires key in {"umbrella", "handbag", "tie", "suitcase", "bottle"}
    ensures FixedValue(Translations(key).value)
  {
    ValuesUmbrellaToBottle();
  }

  lemma ValuesWineGlassToSpoon()
    ensures FixedValue("taça de vinho") && FixedValue("xícara") && FixedValue("garfo") && FixedValue("faca") && FixedValue("colher")
  {
  }

  lemma EntriesWineGlassToSpoon(key: string)
    requires key in {"wine glass", "cup", "fork", "knife", "spoon"}
    ensures FixedValue(Translations(key).value)
  {
    ValuesWineGlassToSpoon();
  }

  lemma ValuesBowlToOrange()
    ensures FixedValue("tigela") && FixedValue("banana") && FixedValue("maçã") && FixedValue("sanduíche") && FixedValue("laranja")
  {
  }

  lemma EntriesBowlToOrange(key: string)
    requires key in {"bowl", "banana", "apple", "sandwich", "orange"}
    ensures FixedValue(Translations(key).value)
  {
    ValuesBowlToOrange();
  }

  lemma ValuesBroccoliToDonut()
    ensures FixedValue("brócolis") && FixedValue("cenoura") && FixedValue("cachorro-quente") && FixedValue("pizza") && FixedValue("rosquinha")
  {
  }

  lemma EntriesBroccoliToDonut(key: string)
    requires key in {"broccoli", "carrot", "hot dog", "pizza", "donut"}
    ensures FixedValue(Translations(key).value)
  {
    ValuesBroccoliToDonut();
  }

  lemma ValuesCakeToBed()
    ensures FixedValue("bolo") && FixedValue("cadeira") && FixedValue("sofá") && FixedValue("planta") && FixedValue("cama")
  {
  }

  lemma EntriesCakeToBed(key: string)
    requires key in {"cake", "chair", "couch", "potted plant", "bed"}
    ensures FixedValue(Translations(key).value)
  {
    ValuesCakeToBed();
  }

  lemma ValuesDiningTableToMouse()
    ensures FixedValue("mesa de jantar") && FixedValue("vaso sanitário") && FixedValue("televisão") && FixedValue("laptop") && FixedValue("mouse")
  {
  }

  lemma EntriesDiningTableToMouse(key: string)
    requires key in {"dining table", "toilet", "tv", "laptop", "mouse"}
    ensures FixedValue(Translations(key).value)
  {
    ValuesDiningTableToMouse();
  }

  lemma ValuesRemoteToOven()
    ensures FixedValue("controle remoto") && FixedValue("teclado") && FixedValue("celular") && FixedValue("micro-ondas") && FixedValue("forno")
  {
  }

  lemma EntriesRemoteToOven(key: string)
    requires key in {"remote", "keyboard", "cell phone", "microwave", "oven"}
    ensures FixedValue(Translations(key).value)
  {
    ValuesRemoteToOven();
  }

  lemma ValuesToasterToClock()
    ensures FixedValue("torradeira") && FixedValue("pia") && FixedValue("geladeira") && FixedValue("livro") && FixedValue("relógio")
  {
  }

  lemma EntriesToasterToClock(key: string)
    requires key in {"toaster", "sink", "refrigerator", "book", "clock"}
    ensures FixedValue(Translations(key).value)
  {
    ValuesToasterToClock();
  }

  lemma ValuesVaseToToothbrush()
    ensures FixedValue("vaso") && FixedValue("tesoura") && FixedValue("ursinho de pelúcia") && FixedValue("secador de cabelo") && FixedValue("escova de dentes")
  {
  }

  lemma EntriesVaseToToothbrush(key: string)
    requires key in {"vase", "scissors", "teddy bear", "hair drier", "toothbrush"}
    ensures FixedValue(Translations(key).value)
  {
    ValuesVaseToToothbrush();
  }

  lemma TableValuesFixed(key: string)
    requires Translations(key).Some?
    ensures FixedValue(Translations(key).value)
  {
    if key in {"person", "bicycle", "car", "motorcycle", "airplane"} {
      EntriesPersonToAirplane(key);
    } else if key in {"bus", "train", "truck", "boat", "traffic light"} {
      EntriesBusToTrafficLight(key);
    } else if key in {"fire hydrant", "stop sign", "parking meter", "bench", "bird"} {
      EntriesFireHydrantToBird(key);
    } else if key in {"cat", "dog", "horse", "sheep", "cow"} {
      EntriesCatToCow(key);
    } else if key in {"elephant", "bear", "zebra", "giraffe", "backpack"} {
      EntriesElephantToBackpack(key);
    } else if key in {"umbrella", "handbag", "tie", "suitcase", "bottle"} {
      EntriesUmbrellaToBottle(key);
    } else if key in {"wine glass", "cup", "fork", "knife", "spoon"} {
      EntriesWineGlassToSpoon(key);
    } else if key in {"bowl", "banana", "apple", "sandwich", "orange"} {
      EntriesBowlToOrange(key);
    } else if key in {"broccoli", "carrot", "hot dog", "pizza", "donut"} {
      EntriesBroccoliToDonut(key);
    } else if key in {"cake", "chair", "couch", "potted plant", "bed"} {
      EntriesCakeToBed(key);
    } else if key in {"dining table", "toilet", "tv", "laptop", "mouse"} {
      EntriesDiningTableToMouse(key);
    } else if key in {"remote", "keyboard", "cell phone", "microwave", "oven"} {
      EntriesRemoteToOven(key);
    } else if key in {"toaster", "sink", "refrigerator", "book", "clock"} {
      EntriesToasterToClock(key);
    } else if key in {"vase", "scissors", "teddy bear", "hair drier", "toothbrush"} {
      EntriesVaseToToothbrush(key);
    }
  }

  /** The identity entries are keys that the table maps to themselves. */
  lemma IdentityEntriesMapToThemselves(key: string)
    requires key in IdentityEntries
    ensures Translations(key) == Some(key)
  {
  }

  /** A known name, in any letter case, is shown as its table value, and
      the letter case of the name does not matter. */
  lemma TranslateKnown(name: string)
    requires Translations(Lower(name)).Some?
    ensures Translate(name) == Translations(Lower(name)).value
    ensures Translate(name) == Translate(Lower(name))
  {
    LowerIdempotent(name);
  }

  /** An unknown name passes through untouched: neither lower-cased nor
      trimmed. */
  lemma TranslateUnknown(name: string)
    requires Translations(Lower(name)).None?
    ensures Translate(name) == name
  {
  }

  /** Translating a translation changes nothing. */
  lemma TranslateIdempotent(name: string)
    ensures Translate(Translate(name)) == Translate(name)
  {
    var key := Lower(name);
    if Translations(key).Some? {
      var v := Translations(key).value;
      TableValuesFixed(key);
      LowerIsLowerCase(v);
    }
  }
}
