/**
 * The constant tables of the trademark search form: the product/service
 * categories, the 45 classes of the Nice Classification and the detail lists
 * offered for some classes.
 */
module TrademarkClasses {
  import opened Text
  import opened ClassSelections

  // ---------------------------------------------------------------------
  // CATEGORY_OPTIONS and isAiCategoryOption

  const CategoryOptions: seq<string> := ["商品・サービス", "商品", "サービス"]

  /** `isAiCategoryOption`: `CATEGORY_OPTIONS.some((o) => o === value)` */
  predicate IsAiCategoryOption(value: string) {
    exists i | 0 <= i < |CategoryOptions| :: CategoryOptions[i] == value
  }

  /** The guard accepts exactly the three category names. */
  lemma IsAiCategoryOptionSpec(value: string)
    ensures IsAiCategoryOption(value) <==> value == "商品・サービス" || value == "商品" || value == "サービス"
  {
    if value == "商品・サービス" {
      assert CategoryOptions[0] == value;
    } else if value == "商品" {
      assert CategoryOptions[1] == value;
    } else if value == "サービス" {
      assert CategoryOptions[2] == value;
    }
  }

  // ---------------------------------------------------------------------
  // NICE_CLASS_OPTIONS

  /** One class of the Nice Classification: its number as text and a short description. */
  datatype NiceClass = NiceClass(code: string, description: string)

  /** The 45 classes of the Nice Classification, in order. */
  const NiceClassOptions: seq<NiceClass> := NiceGoodsClasses + NiceServiceClasses

  /** Classes 1 to 34 of the table: goods. */
  const NiceGoodsClasses: seq<NiceClass> := [
    NiceClass("1", "工業用、科学用又は農業用の化学品"),
    NiceClass("2", "塗料、着色料及び腐食の防止用の調整品"),
    NiceClass("3", "洗浄剤、化粧品、香料、歯磨き、石鹸など"),
    NiceClass("4", "工業用油、潤滑油、燃料、光剤など"),
    NiceClass("5", "薬剤、医薬用製剤、殺菌剤など"),
    NiceClass("6", "金属、金属製品等"),
    NiceClass("7", "機械、原動機、工作機械など"),
    NiceClass("8", "手工具、刃物、道具など"),
    NiceClass("9", "電気・電子機器、情報処理機器、測定器など"),
    NiceClass("10", "医療用機械器具・医療用品"),
    NiceClass("11", "照明、加熱、冷却、給水、換気、乾燥などの装置"),
    NiceClass("12", "移動用装置（車両、輸送用具など）"),
    NiceClass("13", "火器、花火、爆発物など"),
    NiceClass("14", "貴金属、宝飾品、時計など"),
    NiceClass("15", "楽器"),
    NiceClass("16", "紙、紙製品、事務用品など"),
    NiceClass("17", "プラスチック、ゴム、絶縁材料、断熱材料など"),
    NiceClass("18", "革製品、かばん、旅行用品、馬具など"),
    NiceClass("19", "金属製でない建築材料など"),
    NiceClass("20", "家具、寝具、装飾品、プラスチック製品など"),
    NiceClass("21", "台所用品、家庭用器具、ガラス・磁器製品など"),
    NiceClass("22", "ロープ、テント、帆布、織物用原料など"),
    NiceClass("23", "織物用の糸"),
    NiceClass("24", "織物、布製品、カバー、寝具など"),
    NiceClass("25", "衣類、履物、帽子など"),
    NiceClass("26", "裁縫用品、装飾品、ボタン・ファスナーなど"),
    NiceClass("27", "敷物、カーペット、マット、壁紙など"),
    NiceClass("28", "玩具、運動用具、ゲーム器具など"),
    NiceClass("29", "動物性食品、加工肉、魚介、乳製品など"),
    NiceClass("30", "加工植物性食品、菓子、調味料など"),
    NiceClass("31", "生鮮農産物、魚介、生き物、飼料など"),
    NiceClass("32", "非アルコール飲料、果汁、ジュース、水など"),
    NiceClass("33", "アルコール飲料（ビールを除く）など"),
    NiceClass("34", "たばこ、喫煙用具、マッチなど")
  ]

  /** Classes 35 to 45 of the table: services. */
  const NiceServiceClasses: seq<NiceClass> := [
    NiceClass("35", "広告、事業の管理・運営、事務処理、小売・卸売などのサービス"),
    NiceClass("36", "金融、保険、不動産などのサービス"),
    NiceClass("37", "建設、修理、メンテナンス、設置事業など"),
    NiceClass("38", "通信、インターネット、放送、電気通信サービスなど"),
    NiceClass("39", "輸送、物流、旅行手配、運送業務など"),
    NiceClass("40", "物品の加工、加工処理サービス全般"),
    NiceClass("41", "教育、娯楽、文化活動、スポーツ、研修など"),
    NiceClass("42", "科学技術、設計、IT開発、ソフトウェア、調査研究など"),
    NiceClass("43", "飲食店運営、宿泊業、ケータリングなど"),
    NiceClass("44", "医療、美容、衛生、動物医療、農業・園芸等のサービス"),
    NiceClass("45", "法律事務、警備、結婚相談、占い、個人サービスなど")
  ]

  /** Some entry of the table has this code. */
  predicate IsNiceCode(code: string) {
    exists i | 0 <= i < |NiceClassOptions| :: NiceClassOptions[i].code == code
  }

  // ---------------------------------------------------------------------
  // AI_CLASS_DETAILS

  /** The goods and services offered for a class in the detail step (only three classes carry any). */
  const AiClassDetails: map<string, seq<string>> := map[
    "9" := ["コンピュータソフトウェア", "情報処理用プログラム", "データベース"],
    "42" := ["ソフトウェア開発", "情報処理サービス", "技術調査"],
    "45" := ["法律事務", "知的財産権に関する相談"]
  ]
}

/** What the tables of `TrademarkClasses` promise the search form. */
module TrademarkClassFacts {
  import opened Text
  import opened ClassSelections
  import opened TrademarkClasses

  /** The table lists 45 classes in ascending order: entry i carries `String(i + 1)`. */
  lemma NiceClassCodes()
    ensures |NiceClassOptions| == 45
    ensures forall i | 0 <= i < 45 :: NiceClassOptions[i].code == NatToDecimal(i + 1)
  {
    assert |NiceGoodsClasses| == 34 && |NiceServiceClasses| == 11;
    forall i | 0 <= i < 45
      ensures NiceClassOptions[i].code == NatToDecimal(i + 1)
    {
      if i < 3 {
        NiceCodes1To3(i);
      } else if i < 6 {
        NiceCodes4To6(i);
      } else if i < 9 {
        NiceCodes7To9(i);
      } else if i < 12 {
        NiceCodes10To12(i);
      } else if i < 15 {
        NiceCodes13To15(i);
      } else if i < 18 {
        NiceCodes16To18(i);
      } else if i < 21 {
        NiceCodes19To21(i);
      } else if i < 24 {
        NiceCodes22To24(i);
      } else if i < 27 {
        NiceCodes25To27(i);
      } else if i < 30 {
        NiceCodes28To30(i);
      } else if i < 33 {
        NiceCodes31To33(i);
      } else if i < 34 {
        NiceCodes34To34(i);
      } else if i < 38 {
        NiceCodes35To38(i);
      } else if i < 42 {
        NiceCodes39To42(i);
      } else {
        NiceCodes43To45(i);
      }
    }
  }

  lemma NiceCodes1To3(i: nat)
    requires 0 <= i < 3
    ensures NiceGoodsClasses[i].code == NatToDecimal(i + 1)
  {
    if i == 0 {
      assert NiceGoodsClasses[0].code == "1";
      assert NatToDecimal(1) == "1";
    } else if i == 1 {
      assert NiceGoodsClasses[1].code == "2";
      assert NatToDecimal(2) == "2";
    } else {
      assert NiceGoodsClasses[2].code == "3";
      assert NatToDecimal(3) == "3";
    }
  }

  lemma NiceCodes4To6(i: nat)
    requires 3 <= i < 6
    ensures NiceGoodsClasses[i].code == NatToDecimal(i + 1)
  {
    if i == 3 {
      assert NiceGoodsClasses[3].code == "4";
      assert NatToDecimal(4) == "4";
    } else if i == 4 {
      assert NiceGoodsClasses[4].code == "5";
      assert NatToDecimal(5) == "5";
    } else {
      assert NiceGoodsClasses[5].code == "6";
      assert NatToDecimal(6) == "6";
    }
  }

  lemma NiceCodes7To9(i: nat)
    requires 6 <= i < 9
    ensures NiceGoodsClasses[i].code == NatToDecimal(i + 1)
  {
    if i == 6 {
      assert NiceGoodsClasses[6].code == "7";
      assert NatToDecimal(7) == "7";
    } else if i == 7 {
      assert NiceGoodsClasses[7].code == "8";
      assert NatToDecimal(8) == "8";
    } else {
      assert NiceGoodsClasses[8].code == "9";
      assert NatToDecimal(9) == "9";
    }
  }

  lemma NiceCodes10To12(i: nat)
    requires 9 <= i < 12
    ensures NiceGoodsClasses[i].code == NatToDecimal(i + 1)
  {
    if i == 9 {
      assert NiceGoodsClasses[9].code == "10";
      assert NatToDecimal(10) == "10";
    } else if i == 10 {
      assert NiceGoodsClasses[10].code == "11";
      assert NatToDecimal(11) == "11";
    } else {
      assert NiceGoodsClasses[11].code == "12";
      assert NatToDecimal(12) == "12";
    }
  }

  lemma NiceCodes13To15(i: nat)
    requires 12 <= i < 15
    ensures NiceGoodsClasses[i].code == NatToDecimal(i + 1)
  {
    if i == 12 {
      assert NiceGoodsClasses[12].code == "13";
      assert NatToDecimal(13) == "13";
    } else if i == 13 {
      assert NiceGoodsClasses[13].code == "14";
      assert NatToDecimal(14) == "14";
    } else {
      assert NiceGoodsClasses[14].code == "15";
      assert NatToDecimal(15) == "15";
    }
  }

  lemma NiceCodes16To18(i: nat)
    requires 15 <= i < 18
    ensures NiceGoodsClasses[i].code == NatToDecimal(i + 1)
  {
    if i == 15 {
      assert NiceGoodsClasses[15].code == "16";
      assert NatToDecimal(16) == "16";
    } else if i == 16 {
      assert NiceGoodsClasses[16].code == "17";
      assert NatToDecimal(17) == "17";
    } else {
      assert NiceGoodsClasses[17].code == "18";
      assert NatToDecimal(18) == "18";
    }
  }

  lemma NiceCodes19To21(i: nat)
    requires 18 <= i < 21
    ensures NiceGoodsClasses[i].code == NatToDecimal(i + 1)
  {
    if i == 18 {
      assert NiceGoodsClasses[18].code == "19";
      assert NatToDecimal(19) == "19";
    } else if i == 19 {
      assert NiceGoodsClasses[19].code == "20";
      assert NatToDecimal(20) == "20";
    } else {
      assert NiceGoodsClasses[20].code == "21";
      assert NatToDecimal(21) == "21";
    }
  }

  lemma NiceCodes22To24(i: nat)
    requires 21 <= i < 24
    ensures NiceGoodsClasses[i].code == NatToDecimal(i + 1)
  {
    if i == 21 {
      assert NiceGoodsClasses[21].code == "22";
      assert NatToDecimal(22) == "22";
    } else if i == 22 {
      assert NiceGoodsClasses[22].code == "23";
      assert NatToDecimal(23) == "23";
    } else {
      assert NiceGoodsClasses[23].code == "24";
      assert NatToDecimal(24) == "24";
    }
  }

  lemma NiceCodes25To27(i: nat)
    requires 24 <= i < 27
    ensures NiceGoodsClasses[i].code == NatToDecimal(i + 1)
  {
    if i == 24 {
      assert NiceGoodsClasses[24].code == "25";
      assert NatToDecimal(25) == "25";
    } else if i == 25 {
      assert NiceGoodsClasses[25].code == "26";
      assert NatToDecimal(26) == "26";
    } else {
      assert NiceGoodsClasses[26].code == "27";
      assert NatToDecimal(27) == "27";
    }
  }

  lemma NiceCodes28To30(i: nat)
    requires 27 <= i < 30
    ensures NiceGoodsClasses[i].code == NatToDecimal(i + 1)
  {
    if i == 27 {
      assert NiceGoodsClasses[27].code == "28";
      assert NatToDecimal(28) == "28";
    } else if i == 28 {
      assert NiceGoodsClasses[28].code == "29";
      assert NatToDecimal(29) == "29";
    } else {
      assert NiceGoodsClasses[29].code == "30";
      assert NatToDecimal(30) == "30";
    }
  }

  lemma NiceCodes31To33(i: nat)
    requires 30 <= i < 33
    ensures NiceGoodsClasses[i].code == NatToDecimal(i + 1)
  {
    if i == 30 {
      assert NiceGoodsClasses[30].code == "31";
      assert NatToDecimal(31) == "31";
    } else if i == 31 {
      assert NiceGoodsClasses[31].code == "32";
      assert NatToDecimal(32) == "32";
    } else {
      assert NiceGoodsClasses[32].code == "33";
      assert NatToDecimal(33) == "33";
    }
  }

  lemma NiceCodes34To34(i: nat)
    requires 33 <= i < 34
    ensures NiceGoodsClasses[i].code == NatToDecimal(i + 1)
  {
    assert NiceGoodsClasses[33].code == "34";
    assert NatToDecimal(34) == "34";
  }

  lemma NiceCodes35To38(i: nat)
    requires 34 <= i < 38
    ensures NiceServiceClasses[i - 34].code == NatToDecimal(i + 1)
  {
    if i == 34 {
      assert NiceServiceClasses[0].code == "35";
      assert NatToDecimal(35) == "35";
    } else if i == 35 {
      assert NiceServiceClasses[1].code == "36";
      assert NatToDecimal(36) == "36";
    } else if i == 36 {
      assert NiceServiceClasses[2].code == "37";
      assert NatToDecimal(37) == "37";
    } else {
      assert NiceServiceClasses[3].code == "38";
      assert NatToDecimal(38) == "38";
    }
  }

  lemma NiceCodes39To42(i: nat)
    requires 38 <= i < 42
    ensures NiceServiceClasses[i - 34].code == NatToDecimal(i + 1)
  {
    if i == 38 {
      assert NiceServiceClasses[4].code == "39";
      assert NatToDecimal(39) == "39";
    } else if i == 39 {
      assert NiceServiceClasses[5].code == "40";
      assert NatToDecimal(40) == "40";
    } else if i == 40 {
      assert NiceServiceClasses[6].code == "41";
      assert NatToDecimal(41) == "41";
    } else {
      assert NiceServiceClasses[7].code == "42";
      assert NatToDecimal(42) == "42";
    }
  }

  lemma NiceCodes43To45(i: nat)
    requires 42 <= i < 45
    ensures NiceServiceClasses[i - 34].code == NatToDecimal(i + 1)
  {
    if i == 42 {
      assert NiceServiceClasses[8].code == "43";
      assert NatToDecimal(43) == "43";
    } else if i == 43 {
      assert NiceServiceClasses[9].code == "44";
      assert NatToDecimal(44) == "44";
    } else {
      assert NiceServiceClasses[10].code == "45";
      assert NatToDecimal(45) == "45";
    }
  }

  /** No two classes of the table share a code. */
  lemma NiceCodesDistinct()
    ensures forall i, j | 0 <= i < j < |NiceClassOptions| :: NiceClassOptions[i].code != NiceClassOptions[j].code
  {
    NiceClassCodes();
    forall i, j | 0 <= i < j < |NiceClassOptions|
      ensures NiceClassOptions[i].code != NiceClassOptions[j].code
    {
      DecimalRoundTrip(i + 1);
      DecimalRoundTrip(j + 1);
    }
  }

  /** Every class that carries details is a class of the table. */
  lemma AiClassDetailsKeysAreNiceCodes()
    ensures forall code | code in AiClassDetails :: IsNiceCode(code)
  {
    assert NiceClassOptions[8] == NiceGoodsClasses[8];
    assert NiceGoodsClasses[8].code == "9";
    assert NiceClassOptions[41] == NiceServiceClasses[7];
    assert NiceServiceClasses[7].code == "42";
    assert NiceClassOptions[44] == NiceServiceClasses[10];
    assert NiceServiceClasses[10].code == "45";
    assert AiClassDetails.Keys == {"9", "42", "45"};
  }

  /** Detail lists whose entries are non-blank and pairwise distinct. */
  predicate CleanDetails(details: seq<string>) {
    && (forall i | 0 <= i < |details| :: !IsBlank(details[i]))
    && (forall i, j | 0 <= i < j < |details| :: details[i] != details[j])
  }

  /** The detail lists are clean, so sanitising the picks made from them changes nothing. */
  lemma AiClassDetailsClean(code: string)
    requires code in AiClassDetails
    ensures CleanDetails(AiClassDetails[code])
    ensures SanitizeClassDetails(AiClassDetails[code]) == AiClassDetails[code]
  {
    assert AiClassDetails.Keys == {"9", "42", "45"};
    if code == "9" {
      SoftwareDetailsClean();
    } else if code == "42" {
      DevelopmentDetailsClean();
    } else {
      LegalDetailsClean();
    }
  }

  lemma SoftwareDetailsClean()
    ensures CleanDetails(AiClassDetails["9"]) && SanitizeClassDetails(AiClassDetails["9"]) == AiClassDetails["9"]
  {
    var d: seq<string> := ["コンピュータソフトウェア", "情報処理用プログラム", "データベース"];
    assert AiClassDetails["9"] == d;
    ListClean(d);
  }

  lemma DevelopmentDetailsClean()
    ensures CleanDetails(AiClassDetails["42"]) && SanitizeClassDetails(AiClassDetails["42"]) == AiClassDetails["42"]
  {
    var d: seq<string> := ["ソフトウェア開発", "情報処理サービス", "技術調査"];
    assert AiClassDetails["42"] == d;
    ListClean(d);
  }

  lemma LegalDetailsClean()
    ensures CleanDetails(AiClassDetails["45"]) && SanitizeClassDetails(AiClassDetails["45"]) == AiClassDetails["45"]
  {
    var d: seq<string> := ["法律事務", "知的財産権に関する相談"];
    assert AiClassDetails["45"] == d;
    ListClean(d);
  }

  /** A list of distinct entries, each starting and ending with a non-space character, is clean. */
  lemma ListClean(details: seq<string>)
    requires forall i | 0 <= i < |details| :: details[i] != [] && !IsSpace(details[i][0]) && !IsSpace(details[i][|details[i]| - 1])
    requires forall i, j | 0 <= i < j < |details| :: details[i] != details[j]
    ensures CleanDetails(details)
    ensures SanitizeClassDetails(details) == details
  {
    EdgesNotBlank(details);
    SanitizeKeepsClean(details);
  }

  /** Entries that start and end with a non-space character are not blank. */
  lemma EdgesNotBlank(details: seq<string>)
    requires forall i | 0 <= i < |details| :: details[i] != [] && !IsSpace(details[i][0]) && !IsSpace(details[i][|details[i]| - 1])
    ensures forall i | 0 <= i < |details| :: !IsBlank(details[i])
  {
    forall i | 0 <= i < |details|
      ensures !IsBlank(details[i])
    {
      TrimOfTrimmed(details[i]);
    }
  }
}
