// The blob fee at Load's clamp, and what it bounds.
module BlobFeeCeiling {
  import opened BlobFee
  import opened ChainSpec

  const MAX_LOAD_BLOB_GAS: nat := LOAD_MAX_BLOB_COUNT * GAS_PER_BLOB
  const MAX_LOAD_SUM: nat := 2186152775950970875
  // In wei per unit of blob gas.
  const MAX_LOAD_BLOB_FEE: nat := 436556860642

  // One iteration at the clamp, checked by multiplication instead of division.
  lemma Back(term: nat, next: nat, i: nat)
    requires i > 0 && term > 0
    requires next * (5007716 * i) <= term * 134217728 < next * (5007716 * i) + 5007716 * i
    ensures SumTerms(term, 134217728, 5007716, i) == term + SumTerms(next, 134217728, 5007716, i + 1)
  {
    QuotientIsUnique(term * 134217728, 5007716 * i, next);
  }

  // All the accumulators of the loop at the clamp, last to first: there are exactly 85 of them.
  lemma SumFrom71()
    ensures SumTerms(3918754, 134217728, 5007716, 71) == 6264422
  {
    Back(1, 0, 85); Back(4, 1, 84); Back(13, 4, 83); Back(41, 13, 82); Back(125, 41, 81); Back(374, 125, 80);
    Back(1103, 374, 79); Back(3212, 1103, 78); Back(9228, 3212, 77); Back(26168, 9228, 76); Back(73228, 26168, 75);
    Back(202182, 73228, 74); Back(550677, 202182, 73); Back(1479312, 550677, 72); Back(3918754, 1479312, 71);
  }

  lemma SumFrom57()
    ensures SumTerms(668808373171, 134217728, 5007716, 57) == 1246751287600
  {
    SumFrom71();
    Back(10234719, 3918754, 70); Back(26348435, 10234719, 69); Back(66848790, 26348435, 68);
    Back(167108356, 66848790, 67); Back(411501964, 167108356, 66); Back(997964466, 411501964, 65);
    Back(2383004486, 997964466, 64); Back(5601382335, 2383004486, 63); Back(12957365666, 5601382335, 62);
    Back(29490107666, 12957365666, 61); Back(66017248037, 29490107666, 60); Back(145324633472, 66017248037, 59);
    Back(314482901615, 145324633472, 58); Back(668808373171, 314482901615, 57);
  }

  lemma SumFrom43()
    ensures SumTerms(3428542499549452, 134217728, 5007716, 43) == 8661609343509466
  {
    SumFrom57();
    Back(1397396131686, 668808373171, 56); Back(2867556834103, 1397396131686, 55);
    Back(5777442104434, 2867556834103, 54); Back(11424607269979, 5777442104434, 53);
    Back(22165341736517, 11424607269979, 52); Back(42176876659920, 22165341736517, 51);
    Back(78681789368357, 42176876659920, 50); Back(143846770531678, 78681789368357, 49);
    Back(257615008714132, 143846770531678, 48); Back(451750693067620, 257615008714132, 47);
    Back(775329783480967, 451750693067620, 46); Back(1301753605087385, 775329783480967, 45);
    Back(2137033221685636, 1301753605087385, 44); Back(3428542499549452, 2137033221685636, 43);
  }

  lemma SumFrom29()
    ensures SumTerms(160053156306440767, 134217728, 5007716, 29) == 948615388628436097
  {
    SumFrom43();
    Back(5372651066856824, 3428542499549452, 42); Back(8218684338827101, 5372651066856824, 41);
    Back(12265693265942901, 8218684338827101, 40); Back(17847874971771437, 12265693265942901, 39);
    Back(25304625811884524, 17847874971771437, 38); Back(34932643498710718, 25304625811884524, 37);
    Back(46920621989283168, 34932643498710718, 36); Back(61271937424681934, 46920621989283168, 35);
    Back(77726719434169453, 61271937424681934, 34); Back(95700473381236520, 77726719434169453, 33);
    Back(114259908618639046, 95700473381236520, 32); Back(132155540205471189, 114259908618639046, 31);
    Back(147923248971011049, 132155540205471189, 30); Back(160053156306440767, 147923248971011049, 29);
  }

  lemma SumFrom15()
    ensures SumTerms(5670404310713442, 134217728, 5007716, 15) == 2180702315821545606
  {
    SumFrom29();
    Back(167206086570139239, 160053156306440767, 28); Back(168440163622767684, 167206086570139239, 27);
    Back(163398780396768035, 168440163622767684, 26); Back(152411812352646448, 163398780396768035, 25);
    Back(136477065916182744, 152411812352646448, 24); Back(117116293998770630, 136477065916182744, 23);
    Back(96132405586567884, 117116293998770630, 22); Back(75321491785803832, 96132405586567884, 21);
    Back(56205487185662750, 75321491785803832, 20); Back(39843926071236493, 56205487185662750, 19);
    Back(26758664769049483, 39843926071236493, 18); Back(16972396470191269, 26758664769049483, 17);
    Back(10131948156609576, 16972396470191269, 16); Back(5670404310713442, 10131948156609576, 15);
  }

  lemma SumAtClamp()
    ensures SumTerms(LOAD_BLOB_UPDATE_FRACTION, MAX_LOAD_BLOB_GAS, LOAD_BLOB_UPDATE_FRACTION, 1) == MAX_LOAD_SUM
  {
    SumFrom15();
    Back(2961910080203425, 5670404310713442, 14); Back(1436630327176658, 2961910080203425, 13);
    Back(643214882208805, 1436630327176658, 12); Back(263984590976139, 643214882208805, 11);
    Back(98493684827139, 263984590976139, 10); Back(33073541616428, 98493684827139, 9);
    Back(9871894331530, 33073541616428, 8); Back(2578269707860, 9871894331530, 7);
    Back(577177515702, 2578269707860, 6); Back(107673595854, 577177515702, 5); Back(16069376133, 107673595854, 4);
    Back(1798664152, 16069376133, 3); Back(134217728, 1798664152, 2); Back(5007716, 134217728, 1);
  }

  lemma FeeAtClamp()
    ensures FakeExponential(1, MAX_LOAD_BLOB_GAS, LOAD_BLOB_UPDATE_FRACTION) == MAX_LOAD_BLOB_FEE
  {
    SumAtClamp();
  }

  // No block within the clamp makes the u128 loop overflow, and one constant bounds its price.
  lemma FeeWithinClamp(excess: nat)
    requires excess <= MAX_LOAD_BLOB_GAS
    ensures FitsU128(0, LOAD_BLOB_UPDATE_FRACTION, excess, LOAD_BLOB_UPDATE_FRACTION, 1)
    ensures 1 <= FakeExponential(1, excess, LOAD_BLOB_UPDATE_FRACTION) <= MAX_LOAD_BLOB_FEE
  {
    var d := LOAD_BLOB_UPDATE_FRACTION;
    SumAtClamp();
    SumTermsMonotone(d, d, excess, MAX_LOAD_BLOB_GAS, d, 1);
    ProductMonotone(SumTerms(d, excess, d, 1), MAX_LOAD_SUM, excess, MAX_LOAD_BLOB_GAS);
    SmallSumFits(0, d, excess, d, 1);
    FakeExponentialMonotone(1, excess, MAX_LOAD_BLOB_GAS, d);
    FakeExponentialAtLeastFactor(1, excess, d);
    FeeAtClamp();
  }
}
