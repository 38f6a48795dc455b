/** The bucket counts of the hash table, and the certificates that they are prime. */
module KhashPrimes {
  import opened Primality

  // The bucket counts a table can have.  With the last two the 32-bit sum i + inc of a probe step could
  // wrap around, so the table of this model stops growing before them.
  const PRIMES: seq<int> := [
    0, 3, 11, 23, 53,
    97, 193, 389, 769, 1543,
    3079, 6151, 12289, 24593, 49157,
    98317, 196613, 393241, 786433, 1572869,
    3145739, 6291469, 12582917, 25165843, 50331653,
    100663319, 201326611, 402653189, 805306457, 1610612741,
    3221225473, 4294967291
  ]

  // The chains below are certificates: each Sq step squares a residue, each Mu step multiplies one by the base.

  lemma Prime97()
    ensures IsPrime(97)
  {
    hide PowIs;
    PowStart(8, 97); Sq(8, 97, 1, 8, 64); Sq(8, 97, 2, 64, 22); Sq(8, 97, 4, 22, 96); CertifyPower(97, 8, 4);
  }

  lemma Prime193()
    ensures IsPrime(193)
  {
    hide PowIs;
    PowStart(64, 193); Sq(64, 193, 1, 64, 43); Sq(64, 193, 2, 43, 112); Sq(64, 193, 4, 112, 192);
    CertifyPower(193, 64, 4);
  }

  lemma Prime769()
    ensures IsPrime(769)
  {
    hide PowIs;
    PowStart(251, 769); Sq(251, 769, 1, 251, 712); Sq(251, 769, 2, 712, 173); Sq(251, 769, 4, 173, 707);
    Sq(251, 769, 8, 707, 768); CertifyPower(769, 251, 5);
  }

  lemma Prime1543()
    ensures IsPrime(1543)
  {
    hide PowIs;
    TrialDivision(257, 17); PowStart(64, 1543); Sq(64, 1543, 1, 64, 1010); Sq(64, 1543, 2, 1010, 177);
    Sq(64, 1543, 4, 177, 469); Sq(64, 1543, 8, 469, 855); Sq(64, 1543, 16, 855, 1186); Sq(64, 1543, 32, 1186, 923);
    Sq(64, 1543, 64, 923, 193); Sq(64, 1543, 128, 193, 217); Mu(64, 1543, 256, 217, 1); CertifyOne(1543, 64, 257, 49);
  }

  lemma Prime3079()
    ensures IsPrime(3079)
  {
    hide PowIs;
    TrialDivision(19, 5); TrialDivision(3, 3); PowStart(1871, 3079); Sq(1871, 3079, 1, 1871, 2897);
    Sq(1871, 3079, 2, 2897, 2334); Sq(1871, 3079, 4, 2334, 805); Mu(1871, 3079, 8, 805, 524);
    Sq(1871, 3079, 9, 524, 545); Mu(1871, 3079, 18, 545, 546); Mu(1871, 3079, 2, 2897, 1247);
    Sq(1871, 3079, 3, 1247, 114); Mu(1871, 3079, 6, 114, 843); Sq(1871, 3079, 7, 843, 2479);
    Sq(1871, 3079, 14, 2479, 2836); Sq(1871, 3079, 28, 2836, 548); Mu(1871, 3079, 56, 548, 1);
    CertifyTwo(3079, 1871, 19, 3, 546, 1247, 1870, 556);
  }

  lemma Prime6151()
    ensures IsPrime(6151)
  {
    hide PowIs;
    TrialDivision(41, 7); TrialDivision(3, 3); PowStart(2791, 6151); Sq(2791, 6151, 1, 2791, 2515);
    Sq(2791, 6151, 2, 2515, 1997); Mu(2791, 6151, 4, 1997, 821); Sq(2791, 6151, 5, 821, 3582);
    Sq(2791, 6151, 10, 3582, 5889); Sq(2791, 6151, 20, 5889, 983); Mu(2791, 6151, 40, 983, 207);
    Mu(2791, 6151, 2, 2515, 1074); Sq(2791, 6151, 3, 1074, 3239); Mu(2791, 6151, 6, 3239, 4230);
    Sq(2791, 6151, 7, 4230, 5792); Mu(2791, 6151, 14, 5792, 644); Sq(2791, 6151, 15, 644, 2619);
    Sq(2791, 6151, 30, 2619, 796); Mu(2791, 6151, 60, 796, 1125); Sq(2791, 6151, 61, 1125, 4670);
    Mu(2791, 6151, 122, 4670, 1); CertifyTwo(6151, 2791, 41, 3, 207, 1074, 4031, 4265);
  }

  lemma Prime12289()
    ensures IsPrime(12289)
  {
    hide PowIs;
    PowStart(12149, 12289); Sq(12149, 12289, 1, 12149, 7311); Sq(12149, 12289, 2, 7311, 5860);
    Sq(12149, 12289, 4, 5860, 4134); Sq(12149, 12289, 8, 4134, 8246); Sq(12149, 12289, 16, 8246, 1479);
    Sq(12149, 12289, 32, 1479, 12288); CertifyPower(12289, 12149, 7);
  }

  lemma Prime24593()
    ensures IsPrime(24593)
  {
    hide PowIs;
    TrialDivision(53, 9); TrialDivision(29, 7); PowStart(16350, 24593); Sq(16350, 24593, 1, 16350, 21183);
    Mu(16350, 24593, 2, 21183, 23424); Sq(16350, 24593, 3, 23424, 13946); Sq(16350, 24593, 6, 13946, 9472);
    Mu(16350, 24593, 12, 9472, 5079); Sq(16350, 24593, 13, 5079, 22777); Sq(16350, 24593, 26, 22777, 2394);
    Mu(16350, 24593, 52, 2394, 14437); Mu(16350, 24593, 6, 13946, 15397); Sq(16350, 24593, 7, 15397, 15682);
    Sq(16350, 24593, 14, 15682, 19717); Mu(16350, 24593, 28, 19717, 7906); Sq(16350, 24593, 12, 9472, 3520);
    Sq(16350, 24593, 24, 3520, 20121); Sq(16350, 24593, 48, 20121, 4675); Sq(16350, 24593, 96, 4675, 17041);
    Sq(16350, 24593, 192, 17041, 1537); Sq(16350, 24593, 384, 1537, 1441); Sq(16350, 24593, 768, 1441, 10669);
    Mu(16350, 24593, 1536, 10669, 1); CertifyTwo(24593, 16350, 53, 29, 14437, 7906, 23501, 8207);
  }

  lemma Prime49157()
    ensures IsPrime(49157)
  {
    hide PowIs;
    Prime12289(); PowStart(16, 49157); Sq(16, 49157, 1, 16, 256); Mu(16, 49157, 2, 256, 4096);
    Sq(16, 49157, 3, 4096, 14679); Sq(16, 49157, 6, 14679, 17910); Sq(16, 49157, 12, 17910, 18675);
    Sq(16, 49157, 24, 18675, 35867); Sq(16, 49157, 48, 35867, 2999); Sq(16, 49157, 96, 2999, 47427);
    Sq(16, 49157, 192, 47427, 43480); Sq(16, 49157, 384, 43480, 30494); Sq(16, 49157, 768, 30494, 30224);
    Sq(16, 49157, 1536, 30224, 5645); Sq(16, 49157, 3072, 5645, 12289); Sq(16, 49157, 6144, 12289, 9217);
    Mu(16, 49157, 12288, 9217, 1); CertifyOne(49157, 16, 12289, 22940);
  }

  lemma Prime2731()
    ensures IsPrime(2731)
  {
    hide PowIs;
    TrialDivision(13, 5); TrialDivision(5, 3); PowStart(2201, 2731); Sq(2201, 2731, 1, 2201, 2338);
    Mu(2201, 2731, 2, 2338, 734); Sq(2201, 2731, 3, 734, 749); Sq(2201, 2731, 6, 749, 1146);
    Mu(2201, 2731, 12, 1146, 1633); Sq(2201, 2731, 2, 2338, 1513); Mu(2201, 2731, 4, 1513, 1024);
    Sq(2201, 2731, 4, 1513, 591); Sq(2201, 2731, 8, 591, 2444); Sq(2201, 2731, 16, 2444, 439);
    Sq(2201, 2731, 32, 439, 1551); Mu(2201, 2731, 64, 1551, 1); CertifyTwo(2731, 2201, 13, 5, 1633, 1024, 1655, 606);
  }

  lemma Prime98317()
    ensures IsPrime(98317)
  {
    hide PowIs;
    Prime2731(); PowStart(23050, 98317); Sq(23050, 98317, 1, 23050, 95749); Sq(23050, 98317, 2, 95749, 7385);
    Mu(23050, 98317, 4, 7385, 37523); Sq(23050, 98317, 5, 37523, 76089); Sq(23050, 98317, 10, 76089, 41059);
    Mu(23050, 98317, 20, 41059, 10508); Sq(23050, 98317, 21, 10508, 8073); Sq(23050, 98317, 42, 8073, 87475);
    Mu(23050, 98317, 84, 87475, 13714); Sq(23050, 98317, 85, 13714, 91692); Sq(23050, 98317, 170, 91692, 41243);
    Mu(23050, 98317, 340, 41243, 24077); Sq(23050, 98317, 341, 24077, 24897); Sq(23050, 98317, 682, 24897, 70241);
    Mu(23050, 98317, 1364, 70241, 69011); Sq(23050, 98317, 1365, 69011, 42641); Mu(23050, 98317, 2730, 42641, 1);
    CertifyOne(98317, 23050, 2731, 35353);
  }

  lemma Prime196613()
    ensures IsPrime(196613)
  {
    hide PowIs;
    TrialDivision(199, 15); TrialDivision(13, 5); PowStart(85006, 196613); Sq(85006, 196613, 1, 85006, 99060);
    Mu(85006, 196613, 2, 99060, 152796); Sq(85006, 196613, 3, 152796, 3544); Sq(85006, 196613, 6, 3544, 173317);
    Sq(85006, 196613, 12, 173317, 51736); Sq(85006, 196613, 24, 51736, 120927); Mu(85006, 196613, 48, 120927, 3083);
    Sq(85006, 196613, 49, 3083, 67465); Mu(85006, 196613, 98, 67465, 121806); Sq(85006, 196613, 99, 121806, 88043);
    Mu(85006, 196613, 198, 88043, 109413); Mu(85006, 196613, 12, 173317, 182973); Sq(85006, 196613, 2, 99060, 125383);
    Mu(85006, 196613, 4, 125383, 113181); Sq(85006, 196613, 5, 113181, 11972); Sq(85006, 196613, 10, 11972, 194520);
    Sq(85006, 196613, 20, 194520, 55163); Sq(85006, 196613, 40, 55163, 173781); Sq(85006, 196613, 80, 173781, 79161);
    Mu(85006, 196613, 160, 79161, 80041); Sq(85006, 196613, 161, 80041, 123689);
    Mu(85006, 196613, 322, 123689, 33733); Sq(85006, 196613, 323, 33733, 115858);
    Sq(85006, 196613, 646, 115858, 110041); Mu(85006, 196613, 1292, 110041, 85158);
    Sq(85006, 196613, 1293, 85158, 11072); Mu(85006, 196613, 2586, 11072, 1);
    CertifyTwo(196613, 85006, 199, 13, 109413, 182973, 96691, 3661);
  }

  lemma Prime393241()
    ensures IsPrime(393241)
  {
    hide PowIs;
    TrialDivision(113, 11); TrialDivision(29, 7); PowStart(379915, 393241); Sq(379915, 393241, 1, 379915, 230585);
    Mu(379915, 393241, 2, 230585, 9464); Sq(379915, 393241, 3, 9464, 301589); Mu(379915, 393241, 6, 301589, 341247);
    Sq(379915, 393241, 7, 341247, 237402); Sq(379915, 393241, 14, 237402, 16243);
    Sq(379915, 393241, 28, 16243, 363579); Sq(379915, 393241, 56, 363579, 154127);
    Mu(379915, 393241, 112, 154127, 1341); Mu(379915, 393241, 28, 16243, 221573);
    Sq(379915, 393241, 6, 301589, 68103); Sq(379915, 393241, 12, 68103, 134255);
    Mu(379915, 393241, 24, 134255, 164420); Sq(379915, 393241, 25, 164420, 190614);
    Mu(379915, 393241, 50, 190614, 214696); Sq(379915, 393241, 51, 214696, 235360);
    Sq(379915, 393241, 102, 235360, 42894); Sq(379915, 393241, 204, 42894, 313838);
    Mu(379915, 393241, 408, 313838, 306088); Sq(379915, 393241, 409, 306088, 195494);
    Mu(379915, 393241, 818, 195494, 68581); Sq(379915, 393241, 819, 68581, 191201);
    Sq(379915, 393241, 1638, 191201, 172836); Mu(379915, 393241, 3276, 172836, 1);
    CertifyTwo(393241, 379915, 113, 29, 1341, 221573, 381209, 217160);
  }

  lemma Prime786433()
    ensures IsPrime(786433)
  {
    hide PowIs;
    PowStart(122484, 786433); Sq(122484, 786433, 1, 122484, 334348); Sq(122484, 786433, 2, 334348, 279886);
    Sq(122484, 786433, 4, 279886, 368299); Sq(122484, 786433, 8, 368299, 189561);
    Sq(122484, 786433, 16, 189561, 462518); Sq(122484, 786433, 32, 462518, 541396);
    Sq(122484, 786433, 64, 541396, 544685); Sq(122484, 786433, 128, 544685, 686408);
    Sq(122484, 786433, 256, 686408, 786432); CertifyPower(786433, 122484, 10);
  }

  lemma Prime35747()
    ensures IsPrime(35747)
  {
    hide PowIs;
    TrialDivision(293, 19); PowStart(20170, 35747); Sq(20170, 35747, 1, 20170, 28040);
    Sq(20170, 35747, 2, 28040, 22082); Sq(20170, 35747, 4, 22082, 25644); Mu(20170, 35747, 8, 25644, 16137);
    Sq(20170, 35747, 9, 16137, 21621); Sq(20170, 35747, 18, 21621, 4122); Sq(20170, 35747, 36, 4122, 11059);
    Mu(20170, 35747, 72, 11059, 34497); Sq(20170, 35747, 73, 34497, 25379); Sq(20170, 35747, 146, 25379, 4195);
    Mu(20170, 35747, 292, 4195, 1); CertifyOne(35747, 20170, 293, 911);
  }

  lemma Prime1572869()
    ensures IsPrime(1572869)
  {
    hide PowIs;
    Prime35747(); PowStart(174941, 1572869); Sq(174941, 1572869, 1, 174941, 1041348);
    Sq(174941, 1572869, 2, 1041348, 562268); Sq(174941, 1572869, 4, 562268, 207693);
    Sq(174941, 1572869, 8, 207693, 449924); Mu(174941, 1572869, 16, 449924, 643986);
    Sq(174941, 1572869, 17, 643986, 1171835); Sq(174941, 1572869, 34, 1171835, 841037);
    Mu(174941, 1572869, 68, 841037, 968950); Sq(174941, 1572869, 69, 968950, 1294841);
    Mu(174941, 1572869, 138, 1294841, 904608); Sq(174941, 1572869, 139, 904608, 651903);
    Mu(174941, 1572869, 278, 651903, 550140); Sq(174941, 1572869, 279, 550140, 993751);
    Sq(174941, 1572869, 558, 993751, 1092530); Mu(174941, 1572869, 1116, 1092530, 1114195);
    Sq(174941, 1572869, 1117, 1114195, 1172312); Sq(174941, 1572869, 2234, 1172312, 689297);
    Sq(174941, 1572869, 4468, 689297, 1232427); Sq(174941, 1572869, 8936, 1232427, 757361);
    Mu(174941, 1572869, 17872, 757361, 1297617); Sq(174941, 1572869, 17873, 1297617, 136643);
    Mu(174941, 1572869, 35746, 136643, 1); CertifyOne(1572869, 174941, 35747, 1325718);
  }

  lemma Prime3145739()
    ensures IsPrime(3145739)
  {
    hide PowIs;
    Prime1572869(); PowStart(4, 3145739); Sq(4, 3145739, 1, 4, 16); Mu(4, 3145739, 2, 16, 64);
    Sq(4, 3145739, 3, 64, 4096); Sq(4, 3145739, 6, 4096, 1048521); Sq(4, 3145739, 12, 1048521, 1401548);
    Sq(4, 3145739, 24, 1401548, 2097927); Sq(4, 3145739, 48, 2097927, 3035998); Sq(4, 3145739, 96, 3035998, 1198189);
    Sq(4, 3145739, 192, 1198189, 1369162); Sq(4, 3145739, 384, 1369162, 2088842);
    Sq(4, 3145739, 768, 2088842, 1369882); Sq(4, 3145739, 1536, 1369882, 1822169);
    Sq(4, 3145739, 3072, 1822169, 661712); Sq(4, 3145739, 6144, 661712, 1068056);
    Sq(4, 3145739, 12288, 1068056, 1139827); Sq(4, 3145739, 24576, 1139827, 2799973);
    Sq(4, 3145739, 49152, 2799973, 316061); Sq(4, 3145739, 98304, 316061, 1613776);
    Sq(4, 3145739, 196608, 1613776, 595029); Mu(4, 3145739, 393216, 595029, 2380116);
    Sq(4, 3145739, 393217, 2380116, 1572869); Sq(4, 3145739, 786434, 1572869, 786435);
    Mu(4, 3145739, 1572868, 786435, 1); CertifyOne(3145739, 4, 1572869, 1048580);
  }

  lemma Prime174763()
    ensures IsPrime(174763)
  {
    hide PowIs;
    TrialDivision(73, 9); TrialDivision(7, 3); PowStart(113642, 174763); Sq(113642, 174763, 1, 113642, 42753);
    Sq(113642, 174763, 2, 42753, 147555); Sq(113642, 174763, 4, 147555, 153959);
    Mu(113642, 174763, 8, 153959, 160459); Sq(113642, 174763, 9, 160459, 131706);
    Sq(113642, 174763, 18, 131706, 19345); Sq(113642, 174763, 36, 19345, 61442); Mu(113642, 174763, 72, 61442, 85625);
    Mu(113642, 174763, 2, 42753, 125026); Sq(113642, 174763, 3, 125026, 173667); Mu(113642, 174763, 6, 173667, 54387);
    Sq(113642, 174763, 7, 54387, 81994); Mu(113642, 174763, 14, 81994, 123277); Sq(113642, 174763, 15, 123277, 3012);
    Mu(113642, 174763, 30, 3012, 103750); Sq(113642, 174763, 31, 103750, 59804); Mu(113642, 174763, 62, 59804, 62624);
    Sq(113642, 174763, 63, 62624, 83656); Mu(113642, 174763, 126, 83656, 77478);
    Sq(113642, 174763, 127, 77478, 80960); Mu(113642, 174763, 254, 80960, 58185);
    Sq(113642, 174763, 255, 58185, 160152); Mu(113642, 174763, 510, 160152, 1);
    CertifyTwo(174763, 113642, 73, 7, 85625, 54387, 54890, 30736);
  }

  lemma Prime6291469()
    ensures IsPrime(6291469)
  {
    hide PowIs;
    Prime174763(); PowStart(4052318, 6291469); Sq(4052318, 6291469, 1, 4052318, 6016790);
    Sq(4052318, 6291469, 2, 6016790, 1256793); Mu(4052318, 6291469, 4, 1256793, 5906550);
    Sq(4052318, 6291469, 5, 5906550, 4833080); Sq(4052318, 6291469, 10, 4833080, 4465181);
    Mu(4052318, 6291469, 20, 4465181, 5580868); Sq(4052318, 6291469, 21, 5580868, 479261);
    Sq(4052318, 6291469, 42, 479261, 2155869); Mu(4052318, 6291469, 84, 2155869, 2107101);
    Sq(4052318, 6291469, 85, 2107101, 3825308); Sq(4052318, 6291469, 170, 3825308, 5870028);
    Mu(4052318, 6291469, 340, 5870028, 18343); Sq(4052318, 6291469, 341, 18343, 3017792);
    Sq(4052318, 6291469, 682, 3017792, 3599570); Mu(4052318, 6291469, 1364, 3599570, 1296423);
    Sq(4052318, 6291469, 1365, 1296423, 3274800); Sq(4052318, 6291469, 2730, 3274800, 2811980);
    Mu(4052318, 6291469, 5460, 2811980, 4014468); Sq(4052318, 6291469, 5461, 4014468, 3157260);
    Sq(4052318, 6291469, 10922, 3157260, 5434903); Mu(4052318, 6291469, 21844, 5434903, 1124940);
    Sq(4052318, 6291469, 21845, 1124940, 5054533); Sq(4052318, 6291469, 43690, 5054533, 904924);
    Mu(4052318, 6291469, 87380, 904924, 483961); Sq(4052318, 6291469, 87381, 483961, 5733058);
    Mu(4052318, 6291469, 174762, 5733058, 1); CertifyOne(6291469, 4052318, 174763, 5534018);
  }

  lemma Prime4327()
    ensures IsPrime(4327)
  {
    hide PowIs;
    TrialDivision(103, 11); PowStart(962, 4327); Sq(962, 4327, 1, 962, 3793); Mu(962, 4327, 2, 3793, 1205);
    Sq(962, 4327, 3, 1205, 2480); Sq(962, 4327, 6, 2480, 1733); Sq(962, 4327, 12, 1733, 351);
    Mu(962, 4327, 24, 351, 156); Sq(962, 4327, 25, 156, 2701); Mu(962, 4327, 50, 2701, 2162);
    Sq(962, 4327, 51, 2162, 1084); Mu(962, 4327, 102, 1084, 1); CertifyOne(4327, 962, 103, 1729);
  }

  lemma Prime12582917()
    ensures IsPrime(12582917)
  {
    hide PowIs;
    Prime4327(); PowStart(4551950, 12582917); Sq(4551950, 12582917, 1, 4551950, 9710268);
    Sq(4551950, 12582917, 2, 9710268, 8816095); Sq(4551950, 12582917, 4, 8816095, 10368389);
    Sq(4551950, 12582917, 8, 10368389, 5276619); Sq(4551950, 12582917, 16, 5276619, 9474415);
    Mu(4551950, 12582917, 32, 9474415, 8728857); Sq(4551950, 12582917, 33, 8728857, 9869693);
    Mu(4551950, 12582917, 66, 9869693, 204542); Sq(4551950, 12582917, 67, 204542, 11813656);
    Mu(4551950, 12582917, 134, 11813656, 12031312); Sq(4551950, 12582917, 135, 12031312, 560048);
    Sq(4551950, 12582917, 270, 560048, 11973162); Sq(4551950, 12582917, 540, 11973162, 1128509);
    Mu(4551950, 12582917, 1080, 1128509, 3591885); Sq(4551950, 12582917, 1081, 3591885, 8148532);
    Mu(4551950, 12582917, 2162, 8148532, 1414389); Sq(4551950, 12582917, 2163, 1414389, 1184076);
    Mu(4551950, 12582917, 4326, 1184076, 1); CertifyOne(12582917, 4551950, 4327, 7274069);
  }

  lemma Prime16981()
    ensures IsPrime(16981)
  {
    hide PowIs;
    TrialDivision(283, 17); PowStart(12470, 16981); Sq(12470, 16981, 1, 12470, 5883); Sq(12470, 16981, 2, 5883, 2411);
    Sq(12470, 16981, 4, 2411, 5419); Sq(12470, 16981, 8, 5419, 5412); Mu(12470, 16981, 16, 5412, 5146);
    Sq(12470, 16981, 17, 5146, 7937); Mu(12470, 16981, 34, 7937, 9122); Sq(12470, 16981, 35, 9122, 3984);
    Sq(12470, 16981, 70, 3984, 12002); Mu(12470, 16981, 140, 12002, 11387); Sq(12470, 16981, 141, 11387, 13834);
    Mu(12470, 16981, 282, 13834, 1); CertifyOne(16981, 12470, 283, 12875);
  }

  lemma Prime25165843()
    ensures IsPrime(25165843)
  {
    hide PowIs;
    Prime16981(); PowStart(12979417, 25165843); Sq(12979417, 25165843, 1, 12979417, 3951760);
    Sq(12979417, 25165843, 2, 3951760, 20048223); Sq(12979417, 25165843, 4, 20048223, 17151829);
    Sq(12979417, 25165843, 8, 17151829, 6261575); Sq(12979417, 25165843, 16, 6261575, 20217874);
    Mu(12979417, 25165843, 32, 20217874, 18763033); Sq(12979417, 25165843, 33, 18763033, 12342124);
    Sq(12979417, 25165843, 66, 12342124, 7625195); Sq(12979417, 25165843, 132, 7625195, 7301494);
    Mu(12979417, 25165843, 264, 7301494, 6433086); Sq(12979417, 25165843, 265, 6433086, 20981814);
    Sq(12979417, 25165843, 530, 20981814, 8472594); Mu(12979417, 25165843, 1060, 8472594, 7343943);
    Sq(12979417, 25165843, 1061, 7343943, 1839560); Sq(12979417, 25165843, 2122, 1839560, 5582919);
    Mu(12979417, 25165843, 4244, 5582919, 2127163); Sq(12979417, 25165843, 4245, 2127163, 3857169);
    Sq(12979417, 25165843, 8490, 3857169, 8303077); Mu(12979417, 25165843, 16980, 8303077, 1);
    CertifyOne(25165843, 12979417, 16981, 15038212);
  }

  lemma Prime5743()
    ensures IsPrime(5743)
  {
    hide PowIs;
    TrialDivision(29, 7); TrialDivision(3, 3); PowStart(2127, 5743); Sq(2127, 5743, 1, 2127, 4388);
    Mu(2127, 5743, 2, 4388, 901); Sq(2127, 5743, 3, 901, 2038); Mu(2127, 5743, 6, 2038, 4604);
    Sq(2127, 5743, 7, 4604, 5146); Sq(2127, 5743, 14, 5146, 343); Mu(2127, 5743, 28, 343, 200);
    Sq(2127, 5743, 2, 4388, 4008); Mu(2127, 5743, 4, 4008, 2404); Sq(2127, 5743, 5, 2404, 1758);
    Sq(2127, 5743, 10, 1758, 830); Mu(2127, 5743, 20, 830, 2309); Sq(2127, 5743, 21, 2309, 1977);
    Mu(2127, 5743, 42, 1977, 1203); Sq(2127, 5743, 43, 1203, 5716); Mu(2127, 5743, 86, 5716, 1);
    CertifyTwo(5743, 2127, 29, 3, 200, 901, 1847, 3784);
  }

  lemma Prime50331653()
    ensures IsPrime(50331653)
  {
    hide PowIs;
    Prime5743(); TrialDivision(7, 3); PowStart(16415917, 50331653); Sq(16415917, 50331653, 1, 16415917, 17010693);
    Sq(16415917, 50331653, 2, 17010693, 7143482); Mu(16415917, 50331653, 4, 7143482, 45579701);
    Sq(16415917, 50331653, 5, 45579701, 3350119); Mu(16415917, 50331653, 10, 3350119, 42472102);
    Sq(16415917, 50331653, 11, 42472102, 878171); Sq(16415917, 50331653, 22, 878171, 2717975);
    Sq(16415917, 50331653, 44, 2717975, 10063203); Mu(16415917, 50331653, 88, 10063203, 15996712);
    Sq(16415917, 50331653, 89, 15996712, 13914628); Mu(16415917, 50331653, 178, 13914628, 29564304);
    Sq(16415917, 50331653, 179, 29564304, 10291647); Sq(16415917, 50331653, 358, 10291647, 17067756);
    Mu(16415917, 50331653, 716, 17067756, 42504256); Sq(16415917, 50331653, 717, 42504256, 26578545);
    Mu(16415917, 50331653, 1434, 26578545, 30711646); Sq(16415917, 50331653, 1435, 30711646, 38808263);
    Mu(16415917, 50331653, 2870, 38808263, 24484753); Sq(16415917, 50331653, 2871, 24484753, 42347094);
    Mu(16415917, 50331653, 5742, 42347094, 34243609); Mu(16415917, 50331653, 2, 17010693, 23426468);
    Sq(16415917, 50331653, 3, 23426468, 20410085); Mu(16415917, 50331653, 6, 20410085, 47381548);
    Sq(16415917, 50331653, 4, 7143482, 35042091); Mu(16415917, 50331653, 8, 35042091, 45477497);
    Sq(16415917, 50331653, 9, 45477497, 16788733); Mu(16415917, 50331653, 18, 16788733, 5844777);
    Sq(16415917, 50331653, 19, 5844777, 16665651); Mu(16415917, 50331653, 38, 16665651, 15826615);
    Sq(16415917, 50331653, 39, 15826615, 30078753); Sq(16415917, 50331653, 78, 30078753, 38357074);
    Mu(16415917, 50331653, 156, 38357074, 48701614); Sq(16415917, 50331653, 157, 48701614, 19179651);
    Sq(16415917, 50331653, 314, 19179651, 9869048); Sq(16415917, 50331653, 628, 9869048, 18083026);
    Sq(16415917, 50331653, 1256, 18083026, 38809910); Sq(16415917, 50331653, 2512, 38809910, 21664101);
    Mu(16415917, 50331653, 5024, 21664101, 22550608); Sq(16415917, 50331653, 5025, 22550608, 38551924);
    Sq(16415917, 50331653, 10050, 38551924, 13580132); Sq(16415917, 50331653, 20100, 13580132, 27038389);
    Mu(16415917, 50331653, 40200, 27038389, 1);
    CertifyTwo(50331653, 16415917, 5743, 7, 34243609, 47381548, 45600957, 30092760);
  }

  lemma Prime52103()
    ensures IsPrime(52103)
  {
    hide PowIs;
    TrialDivision(239, 17); PowStart(9963, 52103); Sq(9963, 52103, 1, 9963, 5154); Mu(9963, 52103, 2, 5154, 27847);
    Sq(9963, 52103, 3, 27847, 6460); Mu(9963, 52103, 6, 6460, 13775); Sq(9963, 52103, 7, 13775, 43602);
    Sq(9963, 52103, 14, 43602, 140); Mu(9963, 52103, 28, 140, 40142); Sq(9963, 52103, 29, 40142, 42786);
    Mu(9963, 52103, 58, 42786, 22275); Sq(9963, 52103, 59, 22275, 50859); Mu(9963, 52103, 118, 50859, 6542);
    Sq(9963, 52103, 119, 6542, 21201); Mu(9963, 52103, 238, 21201, 1); CertifyOne(52103, 9963, 239, 33834);
  }

  lemma Prime312619()
    ensures IsPrime(312619)
  {
    hide PowIs;
    Prime52103(); PowStart(64, 312619); Sq(64, 312619, 1, 64, 4096); Mu(64, 312619, 2, 4096, 262144);
    Sq(64, 312619, 3, 262144, 193394); Sq(64, 312619, 6, 193394, 127314); Sq(64, 312619, 12, 127314, 184684);
    Mu(64, 312619, 24, 184684, 252873); Sq(64, 312619, 25, 252873, 100774); Sq(64, 312619, 50, 100774, 283480);
    Mu(64, 312619, 100, 283480, 10818); Sq(64, 312619, 101, 10818, 109618); Mu(64, 312619, 202, 109618, 137934);
    Sq(64, 312619, 203, 137934, 108635); Mu(64, 312619, 406, 108635, 75022); Sq(64, 312619, 407, 75022, 220627);
    Sq(64, 312619, 814, 220627, 244353); Sq(64, 312619, 1628, 244353, 35323); Sq(64, 312619, 3256, 35323, 51900);
    Sq(64, 312619, 6512, 51900, 84696); Mu(64, 312619, 13024, 84696, 106021); Sq(64, 312619, 13025, 106021, 236296);
    Mu(64, 312619, 26050, 236296, 117232); Sq(64, 312619, 26051, 117232, 297965); Mu(64, 312619, 52102, 297965, 1);
    CertifyOne(312619, 64, 52103, 143904);
  }

  lemma Prime100663319()
    ensures IsPrime(100663319)
  {
    hide PowIs;
    Prime312619(); PowStart(37769703, 100663319); Sq(37769703, 100663319, 1, 37769703, 38173071);
    Sq(37769703, 100663319, 2, 38173071, 68431013); Sq(37769703, 100663319, 4, 68431013, 97191791);
    Mu(37769703, 100663319, 8, 97191791, 21993990); Sq(37769703, 100663319, 9, 21993990, 29931980);
    Mu(37769703, 100663319, 18, 29931980, 42188984); Sq(37769703, 100663319, 19, 42188984, 86444952);
    Sq(37769703, 100663319, 38, 86444952, 17925627); Sq(37769703, 100663319, 76, 17925627, 18119996);
    Sq(37769703, 100663319, 152, 18119996, 2814483); Mu(37769703, 100663319, 304, 2814483, 10868126);
    Sq(37769703, 100663319, 305, 10868126, 38830294); Sq(37769703, 100663319, 610, 38830294, 68022477);
    Mu(37769703, 100663319, 1220, 68022477, 34074802); Sq(37769703, 100663319, 1221, 34074802, 37369095);
    Sq(37769703, 100663319, 2442, 37369095, 86201138); Sq(37769703, 100663319, 4884, 86201138, 58938045);
    Mu(37769703, 100663319, 9768, 58938045, 94141832); Sq(37769703, 100663319, 9769, 94141832, 43730264);
    Sq(37769703, 100663319, 19538, 43730264, 88958322); Mu(37769703, 100663319, 39076, 88958322, 11374818);
    Sq(37769703, 100663319, 39077, 11374818, 95416302); Sq(37769703, 100663319, 78154, 95416302, 71641746);
    Mu(37769703, 100663319, 156308, 71641746, 76009608); Sq(37769703, 100663319, 156309, 76009608, 43959564);
    Mu(37769703, 100663319, 312618, 43959564, 1); CertifyOne(100663319, 37769703, 312619, 68677938);
  }

  lemma Prime6710887()
    ensures IsPrime(6710887)
  {
    hide PowIs;
    TrialDivision(241, 17); TrialDivision(13, 5); PowStart(5683119, 6710887); Sq(5683119, 6710887, 1, 5683119, 26250);
    Mu(5683119, 6710887, 2, 26250, 5566627); Sq(5683119, 6710887, 3, 5566627, 3339465);
    Mu(5683119, 6710887, 6, 3339465, 650499); Sq(5683119, 6710887, 7, 650499, 680103);
    Mu(5683119, 6710887, 14, 680103, 4468042); Sq(5683119, 6710887, 15, 4468042, 305678);
    Sq(5683119, 6710887, 30, 305678, 3359983); Sq(5683119, 6710887, 60, 3359983, 2152121);
    Sq(5683119, 6710887, 120, 2152121, 5472286); Mu(5683119, 6710887, 240, 5472286, 6317538);
    Sq(5683119, 6710887, 6, 3339465, 1976478); Mu(5683119, 6710887, 12, 1976478, 4521135);
    Sq(5683119, 6710887, 12, 1976478, 4274688); Sq(5683119, 6710887, 24, 4274688, 4081010);
    Sq(5683119, 6710887, 48, 4081010, 6182042); Mu(5683119, 6710887, 96, 6182042, 1808056);
    Sq(5683119, 6710887, 97, 1808056, 5536600); Mu(5683119, 6710887, 194, 5536600, 1972449);
    Sq(5683119, 6710887, 195, 1972449, 5560882); Mu(5683119, 6710887, 390, 5560882, 3498626);
    Sq(5683119, 6710887, 391, 3498626, 1146243); Mu(5683119, 6710887, 782, 1146243, 4204565);
    Sq(5683119, 6710887, 783, 4204565, 4721978); Sq(5683119, 6710887, 1566, 4721978, 6535470);
    Mu(5683119, 6710887, 3132, 6535470, 1); CertifyTwo(6710887, 5683119, 241, 13, 6317538, 4521135, 4306552, 4647176);
  }

  lemma Prime201326611()
    ensures IsPrime(201326611)
  {
    hide PowIs;
    Prime6710887(); PowStart(67108769, 201326611); Sq(67108769, 201326611, 1, 67108769, 178967256);
    Mu(67108769, 201326611, 2, 178967256, 185372993); Sq(67108769, 201326611, 3, 185372993, 20357280);
    Sq(67108769, 201326611, 6, 20357280, 99851560); Sq(67108769, 201326611, 12, 99851560, 39090620);
    Mu(67108769, 201326611, 24, 39090620, 199567134); Sq(67108769, 201326611, 25, 199567134, 161342793);
    Mu(67108769, 201326611, 50, 161342793, 159379078); Sq(67108769, 201326611, 51, 159379078, 139339645);
    Sq(67108769, 201326611, 102, 139339645, 151801581); Sq(67108769, 201326611, 204, 151801581, 116231937);
    Mu(67108769, 201326611, 408, 116231937, 100100433); Sq(67108769, 201326611, 409, 100100433, 189023806);
    Mu(67108769, 201326611, 818, 189023806, 38724574); Sq(67108769, 201326611, 819, 38724574, 95157760);
    Sq(67108769, 201326611, 1638, 95157760, 152338507); Sq(67108769, 201326611, 3276, 152338507, 192427272);
    Mu(67108769, 201326611, 6552, 192427272, 29384371); Sq(67108769, 201326611, 6553, 29384371, 145526503);
    Mu(67108769, 201326611, 13106, 145526503, 17265836); Sq(67108769, 201326611, 13107, 17265836, 149359143);
    Sq(67108769, 201326611, 26214, 149359143, 21796592); Sq(67108769, 201326611, 52428, 21796592, 80870220);
    Mu(67108769, 201326611, 104856, 80870220, 59542091); Sq(67108769, 201326611, 104857, 59542091, 46901003);
    Mu(67108769, 201326611, 209714, 46901003, 12094823); Sq(67108769, 201326611, 209715, 12094823, 22542285);
    Sq(67108769, 201326611, 419430, 22542285, 5732284); Sq(67108769, 201326611, 838860, 5732284, 161022124);
    Mu(67108769, 201326611, 1677720, 161022124, 57655796); Sq(67108769, 201326611, 1677721, 57655796, 165076664);
    Mu(67108769, 201326611, 3355442, 165076664, 116557835); Sq(67108769, 201326611, 3355443, 116557835, 11258396);
    Mu(67108769, 201326611, 6710886, 11258396, 1); CertifyOne(201326611, 67108769, 6710887, 101646986);
  }

  lemma Prime1091()
    ensures IsPrime(1091)
  {
    hide PowIs;
    TrialDivision(109, 11); PowStart(1024, 1091); Sq(1024, 1091, 1, 1024, 125); Mu(1024, 1091, 2, 125, 353);
    Sq(1024, 1091, 3, 353, 235); Sq(1024, 1091, 6, 235, 675); Mu(1024, 1091, 12, 675, 597);
    Sq(1024, 1091, 13, 597, 743); Mu(1024, 1091, 26, 743, 405); Sq(1024, 1091, 27, 405, 375);
    Sq(1024, 1091, 54, 375, 977); Mu(1024, 1091, 108, 977, 1); CertifyOne(1091, 1024, 109, 369);
  }

  lemma Prime402653189()
    ensures IsPrime(402653189)
  {
    hide PowIs;
    Prime1091(); TrialDivision(269, 17); PowStart(287839, 402653189); Sq(287839, 402653189, 1, 287839, 307386176);
    Sq(287839, 402653189, 2, 307386176, 80575791); Sq(287839, 402653189, 4, 80575791, 363774204);
    Sq(287839, 402653189, 8, 363774204, 102303043); Mu(287839, 402653189, 16, 102303043, 375229318);
    Sq(287839, 402653189, 17, 375229318, 321967843); Sq(287839, 402653189, 34, 321967843, 113664486);
    Sq(287839, 402653189, 68, 113664486, 195567317); Sq(287839, 402653189, 136, 195567317, 217561645);
    Sq(287839, 402653189, 272, 217561645, 389208042); Mu(287839, 402653189, 544, 389208042, 264785335);
    Sq(287839, 402653189, 545, 264785335, 195234944); Mu(287839, 402653189, 1090, 195234944, 341376420);
    Sq(287839, 402653189, 16, 102303043, 326279163); Mu(287839, 402653189, 32, 326279163, 232890019);
    Sq(287839, 402653189, 33, 232890019, 313441835); Mu(287839, 402653189, 66, 313441835, 297551280);
    Sq(287839, 402653189, 67, 297551280, 334533319); Sq(287839, 402653189, 134, 334533319, 7511561);
    Mu(287839, 402653189, 268, 7511561, 275234938); Mu(287839, 402653189, 34, 321967843, 243981037);
    Sq(287839, 402653189, 35, 243981037, 44923961); Mu(287839, 402653189, 70, 44923961, 63498733);
    Sq(287839, 402653189, 71, 63498733, 185943900); Mu(287839, 402653189, 142, 185943900, 36390653);
    Sq(287839, 402653189, 143, 36390653, 397568522); Sq(287839, 402653189, 286, 397568522, 282541577);
    Mu(287839, 402653189, 572, 282541577, 204480639); Sq(287839, 402653189, 573, 204480639, 349010438);
    Sq(287839, 402653189, 1146, 349010438, 228440250); Sq(287839, 402653189, 2292, 228440250, 114294798);
    Mu(287839, 402653189, 4584, 114294798, 124207466); Sq(287839, 402653189, 4585, 124207466, 345494512);
    Mu(287839, 402653189, 9170, 345494512, 315526726); Sq(287839, 402653189, 9171, 315526726, 101308302);
    Sq(287839, 402653189, 18342, 101308302, 367207353); Sq(287839, 402653189, 36684, 367207353, 88385227);
    Mu(287839, 402653189, 73368, 88385227, 281567055); Sq(287839, 402653189, 73369, 281567055, 205383678);
    Mu(287839, 402653189, 146738, 205383678, 293936051); Sq(287839, 402653189, 146739, 293936051, 17474851);
    Mu(287839, 402653189, 293478, 17474851, 1);
    CertifyTwo(402653189, 287839, 1091, 269, 341376420, 275234938, 125189287, 183744784);
  }

  lemma Prime5921371()
    ensures IsPrime(5921371)
  {
    hide PowIs;
    TrialDivision(241, 17); TrialDivision(13, 5); PowStart(1772228, 5921371);
    Sq(1772228, 5921371, 1, 1772228, 2163648); Mu(1772228, 5921371, 2, 2163648, 4956129);
    Sq(1772228, 5921371, 3, 4956129, 5841311); Mu(1772228, 5921371, 6, 5841311, 3318222);
    Sq(1772228, 5921371, 7, 3318222, 3272027); Mu(1772228, 5921371, 14, 3272027, 2931340);
    Sq(1772228, 5921371, 15, 2931340, 4039918); Sq(1772228, 5921371, 30, 4039918, 4672328);
    Sq(1772228, 5921371, 60, 4672328, 4798479); Sq(1772228, 5921371, 120, 4798479, 1545666);
    Mu(1772228, 5921371, 240, 1545666, 4889651); Sq(1772228, 5921371, 6, 5841311, 2680178);
    Mu(1772228, 5921371, 12, 2680178, 5456595); Sq(1772228, 5921371, 12, 2680178, 2760051);
    Sq(1772228, 5921371, 24, 2760051, 2202875); Sq(1772228, 5921371, 48, 2202875, 5910560);
    Mu(1772228, 5921371, 96, 5910560, 1999648); Sq(1772228, 5921371, 97, 1999648, 2793653);
    Mu(1772228, 5921371, 194, 2793653, 1505622); Sq(1772228, 5921371, 195, 1505622, 1382841);
    Mu(1772228, 5921371, 390, 1382841, 2117123); Sq(1772228, 5921371, 391, 2117123, 4333195);
    Mu(1772228, 5921371, 782, 4333195, 1222673); Sq(1772228, 5921371, 783, 1222673, 2178156);
    Sq(1772228, 5921371, 1566, 2178156, 1238119); Mu(1772228, 5921371, 3132, 1238119, 1);
    CertifyTwo(5921371, 1772228, 241, 13, 4889651, 5456595, 1332003, 4692906);
  }

  lemma Prime805306457()
    ensures IsPrime(805306457)
  {
    hide PowIs;
    Prime5921371(); PowStart(456105428, 805306457); Sq(456105428, 805306457, 1, 456105428, 314948370);
    Sq(456105428, 805306457, 2, 314948370, 486383125); Mu(456105428, 805306457, 4, 486383125, 326929476);
    Sq(456105428, 805306457, 5, 326929476, 111673896); Mu(456105428, 805306457, 10, 111673896, 440777388);
    Sq(456105428, 805306457, 11, 440777388, 419790032); Sq(456105428, 805306457, 22, 419790032, 337809722);
    Mu(456105428, 805306457, 44, 337809722, 274899898); Sq(456105428, 805306457, 45, 274899898, 22062689);
    Sq(456105428, 805306457, 90, 22062689, 395122270); Sq(456105428, 805306457, 180, 395122270, 622061426);
    Mu(456105428, 805306457, 360, 622061426, 274505989); Sq(456105428, 805306457, 361, 274505989, 545161672);
    Sq(456105428, 805306457, 722, 545161672, 753433927); Mu(456105428, 805306457, 1444, 753433927, 716273088);
    Sq(456105428, 805306457, 1445, 716273088, 101559673); Mu(456105428, 805306457, 2890, 101559673, 566931395);
    Sq(456105428, 805306457, 2891, 566931395, 153808002); Sq(456105428, 805306457, 5782, 153808002, 760350157);
    Mu(456105428, 805306457, 11564, 760350157, 413338268); Sq(456105428, 805306457, 11565, 413338268, 766074599);
    Sq(456105428, 805306457, 23130, 766074599, 742723199); Sq(456105428, 805306457, 46260, 742723199, 662129531);
    Mu(456105428, 805306457, 92520, 662129531, 390685525); Sq(456105428, 805306457, 92521, 390685525, 361746934);
    Sq(456105428, 805306457, 185042, 361746934, 184668155); Mu(456105428, 805306457, 370084, 184668155, 390833486);
    Sq(456105428, 805306457, 370085, 390833486, 741972875); Mu(456105428, 805306457, 740170, 741972875, 643403453);
    Sq(456105428, 805306457, 740171, 643403453, 68116905); Sq(456105428, 805306457, 1480342, 68116905, 276756464);
    Mu(456105428, 805306457, 2960684, 276756464, 482263840); Sq(456105428, 805306457, 2960685, 482263840, 472389962);
    Mu(456105428, 805306457, 5921370, 472389962, 1); CertifyOne(805306457, 456105428, 5921371, 633581941);
  }

  lemma Prime5233()
    ensures IsPrime(5233)
  {
    hide PowIs;
    TrialDivision(109, 11); PowStart(427, 5233); Sq(427, 5233, 1, 427, 4407); Mu(427, 5233, 2, 4407, 3142);
    Sq(427, 5233, 3, 3142, 2726); Sq(427, 5233, 6, 2726, 216); Mu(427, 5233, 12, 216, 3271);
    Sq(427, 5233, 13, 3271, 3189); Mu(427, 5233, 26, 3189, 1123); Sq(427, 5233, 27, 1123, 5209);
    Sq(427, 5233, 54, 5209, 576); Mu(427, 5233, 108, 576, 1); CertifyOne(5233, 427, 109, 3157);
  }

  lemma Prime1610612741()
    ensures IsPrime(1610612741)
  {
    hide PowIs;
    Prime5233(); TrialDivision(11, 5); PowStart(1500909536, 1610612741);
    Sq(1500909536, 1610612741, 1, 1500909536, 44388422); Sq(1500909536, 1610612741, 2, 44388422, 185236921);
    Mu(1500909536, 1610612741, 4, 185236921, 929037785); Sq(1500909536, 1610612741, 5, 929037785, 554662160);
    Sq(1500909536, 1610612741, 10, 554662160, 1345512552); Sq(1500909536, 1610612741, 20, 1345512552, 896234508);
    Sq(1500909536, 1610612741, 40, 896234508, 1510078098); Mu(1500909536, 1610612741, 80, 1510078098, 622050748);
    Sq(1500909536, 1610612741, 81, 622050748, 653107845); Mu(1500909536, 1610612741, 162, 653107845, 224379243);
    Sq(1500909536, 1610612741, 163, 224379243, 876323991); Mu(1500909536, 1610612741, 326, 876323991, 1007586091);
    Sq(1500909536, 1610612741, 327, 1007586091, 1350617206); Sq(1500909536, 1610612741, 654, 1350617206, 560902183);
    Sq(1500909536, 1610612741, 1308, 560902183, 1317186132); Sq(1500909536, 1610612741, 2616, 1317186132, 496667258);
    Mu(1500909536, 1610612741, 5232, 496667258, 161650165); Mu(1500909536, 1610612741, 10, 554662160, 1492572786);
    Mu(1500909536, 1610612741, 2, 44388422, 172650746); Sq(1500909536, 1610612741, 3, 172650746, 81769260);
    Mu(1500909536, 1610612741, 6, 81769260, 1255065207); Sq(1500909536, 1610612741, 7, 1255065207, 703094445);
    Sq(1500909536, 1610612741, 14, 703094445, 723174822); Sq(1500909536, 1610612741, 28, 723174822, 25920093);
    Sq(1500909536, 1610612741, 56, 25920093, 222347909); Sq(1500909536, 1610612741, 112, 222347909, 254277443);
    Sq(1500909536, 1610612741, 224, 254277443, 323327489); Mu(1500909536, 1610612741, 448, 323327489, 341284088);
    Sq(1500909536, 1610612741, 449, 341284088, 565335313); Mu(1500909536, 1610612741, 898, 565335313, 819631378);
    Sq(1500909536, 1610612741, 899, 819631378, 489116543); Sq(1500909536, 1610612741, 1798, 489116543, 631842537);
    Mu(1500909536, 1610612741, 3596, 631842537, 1580555566); Sq(1500909536, 1610612741, 3597, 1580555566, 817235200);
    Mu(1500909536, 1610612741, 7194, 817235200, 882384028); Sq(1500909536, 1610612741, 7195, 882384028, 744522845);
    Sq(1500909536, 1610612741, 14390, 744522845, 463368353); Mu(1500909536, 1610612741, 28780, 463368353, 1438758892);
    Sq(1500909536, 1610612741, 28781, 1438758892, 787681959); Mu(1500909536, 1610612741, 57562, 787681959, 1);
    CertifyTwo(1610612741, 1500909536, 5233, 11, 161650165, 1492572786, 1051756363, 290964600);
  }

  /** Every bucket count up to 1610612741 is prime. */
  lemma PrimesArePrime(t: nat)
    requires 0 < t < 30
    ensures IsPrime(PRIMES[t])
  {
    TrialDivision(3, 3); TrialDivision(11, 5); TrialDivision(23, 5); TrialDivision(53, 9); Prime97(); Prime193();
    TrialDivision(389, 21); Prime769(); Prime1543(); Prime3079(); Prime6151(); Prime12289(); Prime24593();
    Prime49157(); Prime98317(); Prime196613(); Prime393241(); Prime786433(); Prime1572869(); Prime3145739();
    Prime6291469(); Prime12582917(); Prime25165843(); Prime50331653(); Prime100663319(); Prime201326611();
    Prime402653189(); Prime805306457(); Prime1610612741();
  }
}
