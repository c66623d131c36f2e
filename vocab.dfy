// The YardWords vocabulary: a fixed list of yard and street words, each an
// English word, its IPA transcription and its Russian translation.

module Vocab {

  /** One dictionary entry; `en` is the target word, `ru` the translation. */
  datatype Entry = Entry(en: string, ipa: string, ru: string)

  /** The compiled-in word list, in its original order. */
  const VOCAB: seq<Entry> := [
    Entry("fence", "/fens/", "забор"),
    Entry("gate", "/ɡeɪt/", "калитка, ворота"),
    Entry("bench", "/bentʃ/", "скамейка"),
    Entry("swing", "/swɪŋ/", "качели"),
    Entry("lawn", "/lɔːn/", "газон"),
    Entry("bush", "/bʊʃ/", "куст"),
    Entry("tree", "/triː/", "дерево"),
    Entry("flower", "/ˈflaʊ.ər/", "цветок"),
    Entry("fountain", "/ˈfaʊn.tɪn/", "фонтан"),
    Entry("gazebo", "/ɡəˈziː.boʊ/", "беседка"),
    Entry("grill", "/ɡrɪl/", "гриль"),
    Entry("barbecue", "/ˈbɑːr.bə.kjuː/", "мангал, барбекю"),
    Entry("shed", "/ʃed/", "сарай"),
    Entry("garage", "/ɡəˈrɑːʒ/", "гараж"),
    Entry("path", "/pæθ/", "дорожка, тропинка"),
    Entry("lantern", "/ˈlæn.tɚn/", "фонарь"),
    Entry("mailbox", "/ˈmeɪl.bɑːks/", "почтовый ящик"),
    Entry("trash can", "/ˈtræʃ ˌkæn/", "мусорный бак"),
    Entry("hose", "/hoʊz/", "шланг"),
    Entry("watering can", "/ˈwɔː.t̬ɚ.ɪŋ ˌkæn/", "лейка"),
    Entry("rake", "/reɪk/", "грабли"),
    Entry("shovel", "/ˈʃʌv.əl/", "лопата"),
    Entry("wheelbarrow", "/ˈwiːlˌbær.oʊ/", "тачка"),
    Entry("pool", "/puːl/", "бассейн"),
    Entry("playground", "/ˈpleɪ.ɡraʊnd/", "детская площадка"),
    Entry("slide", "/slaɪd/", "горка"),
    Entry("sandbox", "/ˈsænd.bɑːks/", "песочница"),
    Entry("bird", "/bɜːrd/", "птица"),
    Entry("bird feeder", "/ˈbɜːrd ˌfiː.dər/", "кормушка"),
    Entry("birdhouse", "/ˈbɜːrd.haʊs/", "скворечник"),
    Entry("lawn mower", "/ˈlɔːn ˌmoʊ.ər/", "газонокосилка"),
    Entry("porch", "/pɔːrtʃ/", "крыльцо, веранда"),
    Entry("patio", "/ˈpæt.i.oʊ/", "патио, внутренний дворик")
  ]

  lemma VocabSize()
    ensures |VOCAB| == 33
  {
  }

  // Distinctness is split into blocks of rows: one lemma over all 528 pairs
  // of the literal is close to the solver's budget.

  /** No two entries share an English word. */
  lemma EnglishWordsDistinct()
    ensures forall i, j :: 0 <= i < j < |VOCAB| ==> VOCAB[i].en != VOCAB[j].en
  {
    EnglishRows0();
    EnglishRows1();
    EnglishRows2();
    EnglishRows3();
  }

  lemma EnglishRows0()
    ensures forall i, j :: 0 <= i < 6 && i < j < |VOCAB| ==> VOCAB[i].en != VOCAB[j].en
  {
  }

  lemma EnglishRows1()
    ensures forall i, j :: 6 <= i < 12 && i < j < |VOCAB| ==> VOCAB[i].en != VOCAB[j].en
  {
  }

  lemma EnglishRows2()
    ensures forall i, j :: 12 <= i < 18 && i < j < |VOCAB| ==> VOCAB[i].en != VOCAB[j].en
  {
  }

  lemma EnglishRows3()
    ensures forall i, j :: 18 <= i < 33 && i < j < |VOCAB| ==> VOCAB[i].en != VOCAB[j].en
  {
  }

  /** No two entries share a Russian translation. */
  lemma RussianWordsDistinct()
    ensures forall i, j :: 0 <= i < j < |VOCAB| ==> VOCAB[i].ru != VOCAB[j].ru
  {
    RussianRows0();
    RussianRows1();
    RussianRows2();
    RussianRows3();
  }

  lemma RussianRows0()
    ensures forall i, j :: 0 <= i < 6 && i < j < |VOCAB| ==> VOCAB[i].ru != VOCAB[j].ru
  {
  }

  lemma RussianRows1()
    ensures forall i, j :: 6 <= i < 12 && i < j < |VOCAB| ==> VOCAB[i].ru != VOCAB[j].ru
  {
  }

  lemma RussianRows2()
    ensures forall i, j :: 12 <= i < 18 && i < j < |VOCAB| ==> VOCAB[i].ru != VOCAB[j].ru
  {
  }

  lemma RussianRows3()
    ensures forall i, j :: 18 <= i < 33 && i < j < |VOCAB| ==> VOCAB[i].ru != VOCAB[j].ru
  {
  }
}
