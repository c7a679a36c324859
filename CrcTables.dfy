/**
 * CRC32_TABLE and CRC64_TABLE of engine/core/source/core/crc_utils.cpp, with
 * the proof that every entry is the one-byte transition of the bitwise
 * register defined in CrcRegister.
 */
module CrcTables {
  import opened CrcRegister

  /** CRC32_TABLE, entry for entry, written in eight blocks of 32. */
  const Crc32Table: seq<bv32> :=
  [
    0x0000_0000, 0x7707_3096, 0xEE0E_612C, 0x9909_51BA, 0x076D_C419, 0x706A_F48F, 0xE963_A535, 0x9E64_95A3,
    0x0EDB_8832, 0x79DC_B8A4, 0xE0D5_E91E, 0x97D2_D988, 0x09B6_4C2B, 0x7EB1_7CBD, 0xE7B8_2D07, 0x90BF_1D91,
    0x1DB7_1064, 0x6AB0_20F2, 0xF3B9_7148, 0x84BE_41DE, 0x1ADA_D47D, 0x6DDD_E4EB, 0xF4D4_B551, 0x83D3_85C7,
    0x136C_9856, 0x646B_A8C0, 0xFD62_F97A, 0x8A65_C9EC, 0x1401_5C4F, 0x6306_6CD9, 0xFA0F_3D63, 0x8D08_0DF5
  ] +
  [
    0x3B6E_20C8, 0x4C69_105E, 0xD560_41E4, 0xA267_7172, 0x3C03_E4D1, 0x4B04_D447, 0xD20D_85FD, 0xA50A_B56B,
    0x35B5_A8FA, 0x42B2_986C, 0xDBBB_C9D6, 0xACBC_F940, 0x32D8_6CE3, 0x45DF_5C75, 0xDCD6_0DCF, 0xABD1_3D59,
    0x26D9_30AC, 0x51DE_003A, 0xC8D7_5180, 0xBFD0_6116, 0x21B4_F4B5, 0x56B3_C423, 0xCFBA_9599, 0xB8BD_A50F,
    0x2802_B89E, 0x5F05_8808, 0xC60C_D9B2, 0xB10B_E924, 0x2F6F_7C87, 0x5868_4C11, 0xC161_1DAB, 0xB666_2D3D
  ] +
  [
    0x76DC_4190, 0x01DB_7106, 0x98D2_20BC, 0xEFD5_102A, 0x71B1_8589, 0x06B6_B51F, 0x9FBF_E4A5, 0xE8B8_D433,
    0x7807_C9A2, 0x0F00_F934, 0x9609_A88E, 0xE10E_9818, 0x7F6A_0DBB, 0x086D_3D2D, 0x9164_6C97, 0xE663_5C01,
    0x6B6B_51F4, 0x1C6C_6162, 0x8565_30D8, 0xF262_004E, 0x6C06_95ED, 0x1B01_A57B, 0x8208_F4C1, 0xF50F_C457,
    0x65B0_D9C6, 0x12B7_E950, 0x8BBE_B8EA, 0xFCB9_887C, 0x62DD_1DDF, 0x15DA_2D49, 0x8CD3_7CF3, 0xFBD4_4C65
  ] +
  [
    0x4DB2_6158, 0x3AB5_51CE, 0xA3BC_0074, 0xD4BB_30E2, 0x4ADF_A541, 0x3DD8_95D7, 0xA4D1_C46D, 0xD3D6_F4FB,
    0x4369_E96A, 0x346E_D9FC, 0xAD67_8846, 0xDA60_B8D0, 0x4404_2D73, 0x3303_1DE5, 0xAA0A_4C5F, 0xDD0D_7CC9,
    0x5005_713C, 0x2702_41AA, 0xBE0B_1010, 0xC90C_2086, 0x5768_B525, 0x206F_85B3, 0xB966_D409, 0xCE61_E49F,
    0x5EDE_F90E, 0x29D9_C998, 0xB0D0_9822, 0xC7D7_A8B4, 0x59B3_3D17, 0x2EB4_0D81, 0xB7BD_5C3B, 0xC0BA_6CAD
  ] +
  [
    0xEDB8_8320, 0x9ABF_B3B6, 0x03B6_E20C, 0x74B1_D29A, 0xEAD5_4739, 0x9DD2_77AF, 0x04DB_2615, 0x73DC_1683,
    0xE363_0B12, 0x9464_3B84, 0x0D6D_6A3E, 0x7A6A_5AA8, 0xE40E_CF0B, 0x9309_FF9D, 0x0A00_AE27, 0x7D07_9EB1,
    0xF00F_9344, 0x8708_A3D2, 0x1E01_F268, 0x6906_C2FE, 0xF762_575D, 0x8065_67CB, 0x196C_3671, 0x6E6B_06E7,
    0xFED4_1B76, 0x89D3_2BE0, 0x10DA_7A5A, 0x67DD_4ACC, 0xF9B9_DF6F, 0x8EBE_EFF9, 0x17B7_BE43, 0x60B0_8ED5
  ] +
  [
    0xD6D6_A3E8, 0xA1D1_937E, 0x38D8_C2C4, 0x4FDF_F252, 0xD1BB_67F1, 0xA6BC_5767, 0x3FB5_06DD, 0x48B2_364B,
    0xD80D_2BDA, 0xAF0A_1B4C, 0x3603_4AF6, 0x4104_7A60, 0xDF60_EFC3, 0xA867_DF55, 0x316E_8EEF, 0x4669_BE79,
    0xCB61_B38C, 0xBC66_831A, 0x256F_D2A0, 0x5268_E236, 0xCC0C_7795, 0xBB0B_4703, 0x2202_16B9, 0x5505_262F,
    0xC5BA_3BBE, 0xB2BD_0B28, 0x2BB4_5A92, 0x5CB3_6A04, 0xC2D7_FFA7, 0xB5D0_CF31, 0x2CD9_9E8B, 0x5BDE_AE1D
  ] +
  [
    0x9B64_C2B0, 0xEC63_F226, 0x756A_A39C, 0x026D_930A, 0x9C09_06A9, 0xEB0E_363F, 0x7207_6785, 0x0500_5713,
    0x95BF_4A82, 0xE2B8_7A14, 0x7BB1_2BAE, 0x0CB6_1B38, 0x92D2_8E9B, 0xE5D5_BE0D, 0x7CDC_EFB7, 0x0BDB_DF21,
    0x86D3_D2D4, 0xF1D4_E242, 0x68DD_B3F8, 0x1FDA_836E, 0x81BE_16CD, 0xF6B9_265B, 0x6FB0_77E1, 0x18B7_4777,
    0x8808_5AE6, 0xFF0F_6A70, 0x6606_3BCA, 0x1101_0B5C, 0x8F65_9EFF, 0xF862_AE69, 0x616B_FFD3, 0x166C_CF45
  ] +
  [
    0xA00A_E278, 0xD70D_D2EE, 0x4E04_8354, 0x3903_B3C2, 0xA767_2661, 0xD060_16F7, 0x4969_474D, 0x3E6E_77DB,
    0xAED1_6A4A, 0xD9D6_5ADC, 0x40DF_0B66, 0x37D8_3BF0, 0xA9BC_AE53, 0xDEBB_9EC5, 0x47B2_CF7F, 0x30B5_FFE9,
    0xBDBD_F21C, 0xCABA_C28A, 0x53B3_9330, 0x24B4_A3A6, 0xBAD0_3605, 0xCDD7_0693, 0x54DE_5729, 0x23D9_67BF,
    0xB366_7A2E, 0xC461_4AB8, 0x5D68_1B02, 0x2A6F_2B94, 0xB40B_BE37, 0xC30C_8EA1, 0x5A05_DF1B, 0x2D02_EF8D
  ]

  /** CRC64_TABLE, entry for entry, written in eight blocks of 32. */
  const Crc64Table: seq<bv64> :=
  [
    0x0000_0000_0000_0000, 0x7AD8_70C8_3035_8979, 0xF5B0_E190_606B_12F2, 0x8F68_9158_505E_9B8B,
    0xC038_E573_9841_B68F, 0xBAE0_95BB_A874_3FF6, 0x3588_04E3_F82A_A47D, 0x4F50_742B_C81F_2D04,
    0xAB28_ECB4_6814_FE75, 0xD1F0_9C7C_5821_770C, 0x5E98_0D24_087F_EC87, 0x2440_7DEC_384A_65FE,
    0x6B10_09C7_F055_48FA, 0x11C8_790F_C060_C183, 0x9EA0_E857_903E_5A08, 0xE478_989F_A00B_D371,
    0x7D08_FF3B_88BE_6F81, 0x07D0_8FF3_B88B_E6F8, 0x88B8_1EAB_E8D5_7D73, 0xF260_6E63_D8E0_F40A,
    0xBD30_1A48_10FF_D90E, 0xC7E8_6A80_20CA_5077, 0x4880_FBD8_7094_CBFC, 0x3258_8B10_40A1_4285,
    0xD620_138F_E0AA_91F4, 0xACF8_6347_D09F_188D, 0x2390_F21F_80C1_8306, 0x5948_82D7_B0F4_0A7F,
    0x1618_F6FC_78EB_277B, 0x6CC0_8634_48DE_AE02, 0xE3A8_176C_1880_3589, 0x9970_67A4_28B5_BCF0
  ] +
  [
    0xFA11_FE77_117C_DF02, 0x80C9_8EBF_2149_567B, 0x0FA1_1FE7_7117_CDF0, 0x7579_6F2F_4122_4489,
    0x3A29_1B04_893D_698D, 0x40F1_6BCC_B908_E0F4, 0xCF99_FA94_E956_7B7F, 0xB541_8A5C_D963_F206,
    0x5139_12C3_7968_2177, 0x2BE1_620B_495D_A80E, 0xA489_F353_1903_3385, 0xDE51_839B_2936_BAFC,
    0x9101_F7B0_E129_97F8, 0xEBD9_8778_D11C_1E81, 0x64B1_1620_8142_850A, 0x1E69_66E8_B177_0C73,
    0x8719_014C_99C2_B083, 0xFDC1_7184_A9F7_39FA, 0x72A9_E0DC_F9A9_A271, 0x0871_9014_C99C_2B08,
    0x4721_E43F_0183_060C, 0x3DF9_94F7_31B6_8F75, 0xB291_05AF_61E8_14FE, 0xC849_7567_51DD_9D87,
    0x2C31_EDF8_F1D6_4EF6, 0x56E9_9D30_C1E3_C78F, 0xD981_0C68_91BD_5C04, 0xA359_7CA0_A188_D57D,
    0xEC09_088B_6997_F879, 0x96D1_7843_59A2_7100, 0x19B9_E91B_09FC_EA8B, 0x6361_99D3_39C9_63F2
  ] +
  [
    0xDF7A_DABD_7A6E_2D6F, 0xA5A2_AA75_4A5B_A416, 0x2ACA_3B2D_1A05_3F9D, 0x5012_4BE5_2A30_B6E4,
    0x1F42_3FCE_E22F_9BE0, 0x659A_4F06_D21A_1299, 0xEAF2_DE5E_8244_8912, 0x902A_AE96_B271_006B,
    0x7452_3609_127A_D31A, 0x0E8A_46C1_224F_5A63, 0x81E2_D799_7211_C1E8, 0xFB3A_A751_4224_4891,
    0xB46A_D37A_8A3B_6595, 0xCEB2_A3B2_BA0E_ECEC, 0x41DA_32EA_EA50_7767, 0x3B02_4222_DA65_FE1E,
    0xA272_2586_F2D0_42EE, 0xD8AA_554E_C2E5_CB97, 0x57C2_C416_92BB_501C, 0x2D1A_B4DE_A28E_D965,
    0x624A_C0F5_6A91_F461, 0x1892_B03D_5AA4_7D18, 0x97FA_2165_0AFA_E693, 0xED22_51AD_3ACF_6FEA,
    0x095A_C932_9AC4_BC9B, 0x7382_B9FA_AAF1_35E2, 0xFCEA_28A2_FAAF_AE69, 0x8632_586A_CA9A_2710,
    0xC962_2C41_0285_0A14, 0xB3BA_5C89_32B0_836D, 0x3CD2_CDD1_62EE_18E6, 0x460A_BD19_52DB_919F
  ] +
  [
    0x256B_24CA_6B12_F26D, 0x5FB3_5402_5B27_7B14, 0xD0DB_C55A_0B79_E09F, 0xAA03_B592_3B4C_69E6,
    0xE553_C1B9_F353_44E2, 0x9F8B_B171_C366_CD9B, 0x10E3_2029_9338_5610, 0x6A3B_50E1_A30D_DF69,
    0x8E43_C87E_0306_0C18, 0xF49B_B8B6_3333_8561, 0x7BF3_29EE_636D_1EEA, 0x012B_5926_5358_9793,
    0x4E7B_2D0D_9B47_BA97, 0x34A3_5DC5_AB72_33EE, 0xBBCB_CC9D_FB2C_A865, 0xC113_BC55_CB19_211C,
    0x5863_DBF1_E3AC_9DEC, 0x22BB_AB39_D399_1495, 0xADD3_3A61_83C7_8F1E, 0xD70B_4AA9_B3F2_0667,
    0x985B_3E82_7BED_2B63, 0xE283_4E4A_4BD8_A21A, 0x6DEB_DF12_1B86_3991, 0x1733_AFDA_2BB3_B0E8,
    0xF34B_3745_8BB8_6399, 0x8993_478D_BB8D_EAE0, 0x06FB_D6D5_EBD3_716B, 0x7C23_A61D_DBE6_F812,
    0x3373_D236_13F9_D516, 0x49AB_A2FE_23CC_5C6F, 0xC6C3_33A6_7392_C7E4, 0xBC1B_436E_43A7_4E9D
  ] +
  [
    0x95AC_9329_AC4B_C9B5, 0xEF74_E3E1_9C7E_40CC, 0x601C_72B9_CC20_DB47, 0x1AC4_0271_FC15_523E,
    0x5594_765A_340A_7F3A, 0x2F4C_0692_043F_F643, 0xA024_97CA_5461_6DC8, 0xDAFC_E702_6454_E4B1,
    0x3E84_7F9D_C45F_37C0, 0x445C_0F55_F46A_BEB9, 0xCB34_9E0D_A434_2532, 0xB1EC_EEC5_9401_AC4B,
    0xFEBC_9AEE_5C1E_814F, 0x8464_EA26_6C2B_0836, 0x0B0C_7B7E_3C75_93BD, 0x71D4_0BB6_0C40_1AC4,
    0xE8A4_6C12_24F5_A634, 0x927C_1CDA_14C0_2F4D, 0x1D14_8D82_449E_B4C6, 0x67CC_FD4A_74AB_3DBF,
    0x289C_8961_BCB4_10BB, 0x5244_F9A9_8C81_99C2, 0xDD2C_68F1_DCDF_0249, 0xA7F4_1839_ECEA_8B30,
    0x438C_80A6_4CE1_5841, 0x3954_F06E_7CD4_D138, 0xB63C_6136_2C8A_4AB3, 0xCCE4_11FE_1CBF_C3CA,
    0x83B4_65D5_D4A0_EECE, 0xF96C_151D_E495_67B7, 0x7604_8445_B4CB_FC3C, 0x0CDC_F48D_84FE_7545
  ] +
  [
    0x6FBD_6D5E_BD37_16B7, 0x1565_1D96_8D02_9FCE, 0x9A0D_8CCE_DD5C_0445, 0xE0D5_FC06_ED69_8D3C,
    0xAF85_882D_2576_A038, 0xD55D_F8E5_1543_2941, 0x5A35_69BD_451D_B2CA, 0x20ED_1975_7528_3BB3,
    0xC495_81EA_D523_E8C2, 0xBE4D_F122_E516_61BB, 0x3125_607A_B548_FA30, 0x4BFD_10B2_857D_7349,
    0x04AD_6499_4D62_5E4D, 0x7E75_1451_7D57_D734, 0xF11D_8509_2D09_4CBF, 0x8BC5_F5C1_1D3C_C5C6,
    0x12B5_9265_3589_7936, 0x686D_E2AD_05BC_F04F, 0xE705_73F5_55E2_6BC4, 0x9DDD_033D_65D7_E2BD,
    0xD28D_7716_ADC8_CFB9, 0xA855_07DE_9DFD_46C0, 0x273D_9686_CDA3_DD4B, 0x5DE5_E64E_FD96_5432,
    0xB99D_7ED1_5D9D_8743, 0xC345_0E19_6DA8_0E3A, 0x4C2D_9F41_3DF6_95B1, 0x36F5_EF89_0DC3_1CC8,
    0x79A5_9BA2_C5DC_31CC, 0x037D_EB6A_F5E9_B8B5, 0x8C15_7A32_A5B7_233E, 0xF6CD_0AFA_9582_AA47
  ] +
  [
    0x4AD6_4994_D625_E4DA, 0x300E_395C_E610_6DA3, 0xBF66_A804_B64E_F628, 0xC5BE_D8CC_867B_7F51,
    0x8AEE_ACE7_4E64_5255, 0xF036_DC2F_7E51_DB2C, 0x7F5E_4D77_2E0F_40A7, 0x0586_3DBF_1E3A_C9DE,
    0xE1FE_A520_BE31_1AAF, 0x9B26_D5E8_8E04_93D6, 0x144E_44B0_DE5A_085D, 0x6E96_3478_EE6F_8124,
    0x21C6_4053_2670_AC20, 0x5B1E_309B_1645_2559, 0xD476_A1C3_461B_BED2, 0xAEAE_D10B_762E_37AB,
    0x37DE_B6AF_5E9B_8B5B, 0x4D06_C667_6EAE_0222, 0xC26E_573F_3EF0_99A9, 0xB8B6_27F7_0EC5_10D0,
    0xF7E6_53DC_C6DA_3DD4, 0x8D3E_2314_F6EF_B4AD, 0x0256_B24C_A6B1_2F26, 0x788E_C284_9684_A65F,
    0x9CF6_5A1B_368F_752E, 0xE62E_2AD3_06BA_FC57, 0x6946_BB8B_56E4_67DC, 0x139E_CB43_66D1_EEA5,
    0x5CCE_BF68_AECE_C3A1, 0x2616_CFA0_9EFB_4AD8, 0xA97E_5EF8_CEA5_D153, 0xD3A6_2E30_FE90_582A
  ] +
  [
    0xB0C7_B7E3_C759_3BD8, 0xCA1F_C72B_F76C_B2A1, 0x4577_5673_A732_292A, 0x3FAF_26BB_9707_A053,
    0x70FF_5290_5F18_8D57, 0x0A27_2258_6F2D_042E, 0x854F_B300_3F73_9FA5, 0xFF97_C3C8_0F46_16DC,
    0x1BEF_5B57_AF4D_C5AD, 0x6137_2B9F_9F78_4CD4, 0xEE5F_BAC7_CF26_D75F, 0x9487_CA0F_FF13_5E26,
    0xDBD7_BE24_370C_7322, 0xA10F_CEEC_0739_FA5B, 0x2E67_5FB4_5767_61D0, 0x54BF_2F7C_6752_E8A9,
    0xCDCF_48D8_4FE7_5459, 0xB717_3810_7FD2_DD20, 0x387F_A948_2F8C_46AB, 0x42A7_D980_1FB9_CFD2,
    0x0DF7_ADAB_D7A6_E2D6, 0x772F_DD63_E793_6BAF, 0xF847_4C3B_B7CD_F024, 0x829F_3CF3_87F8_795D,
    0x66E7_A46C_27F3_AA2C, 0x1C3F_D4A4_17C6_2355, 0x9357_45FC_4798_B8DE, 0xE98F_3534_77AD_31A7,
    0xA6DF_411F_BFB2_1CA3, 0xDC07_31D7_8F87_95DA, 0x536F_A08F_DFD9_0E51, 0x29B7_D047_EFEC_8728
  ]

  // ---------------------------------------------------------------------
  // The tables are the one-byte transitions of the bitwise register
  // ---------------------------------------------------------------------

  lemma Block32_0(i: bv8)
    requires i >> 3 == 0
    ensures Crc32Table[i as int] == ShiftByte32(i as bv32)
  {
    if i == 0 {} else if i == 1 {} else if i == 2 {} else if i == 3 {} else if i == 4 {} else if i == 5 {} else if i == 6 {} else {}
  }

  lemma Block32_1(i: bv8)
    requires i >> 3 == 1
    ensures Crc32Table[i as int] == ShiftByte32(i as bv32)
  {
    if i == 8 {} else if i == 9 {} else if i == 10 {} else if i == 11 {} else if i == 12 {} else if i == 13 {} else if i == 14 {} else {}
  }

  lemma Block32_2(i: bv8)
    requires i >> 3 == 2
    ensures Crc32Table[i as int] == ShiftByte32(i as bv32)
  {
    if i == 16 {} else if i == 17 {} else if i == 18 {} else if i == 19 {} else if i == 20 {} else if i == 21 {} else if i == 22 {} else {}
  }

  lemma Block32_3(i: bv8)
    requires i >> 3 == 3
    ensures Crc32Table[i as int] == ShiftByte32(i as bv32)
  {
    if i == 24 {} else if i == 25 {} else if i == 26 {} else if i == 27 {} else if i == 28 {} else if i == 29 {} else if i == 30 {} else {}
  }

  lemma Block32_4(i: bv8)
    requires i >> 3 == 4
    ensures Crc32Table[i as int] == ShiftByte32(i as bv32)
  {
    if i == 32 {} else if i == 33 {} else if i == 34 {} else if i == 35 {} else if i == 36 {} else if i == 37 {} else if i == 38 {} else {}
  }

  lemma Block32_5(i: bv8)
    requires i >> 3 == 5
    ensures Crc32Table[i as int] == ShiftByte32(i as bv32)
  {
    if i == 40 {} else if i == 41 {} else if i == 42 {} else if i == 43 {} else if i == 44 {} else if i == 45 {} else if i == 46 {} else {}
  }

  lemma Block32_6(i: bv8)
    requires i >> 3 == 6
    ensures Crc32Table[i as int] == ShiftByte32(i as bv32)
  {
    if i == 48 {} else if i == 49 {} else if i == 50 {} else if i == 51 {} else if i == 52 {} else if i == 53 {} else if i == 54 {} else {}
  }

  lemma Block32_7(i: bv8)
    requires i >> 3 == 7
    ensures Crc32Table[i as int] == ShiftByte32(i as bv32)
  {
    if i == 56 {} else if i == 57 {} else if i == 58 {} else if i == 59 {} else if i == 60 {} else if i == 61 {} else if i == 62 {} else {}
  }

  lemma Block32_8(i: bv8)
    requires i >> 3 == 8
    ensures Crc32Table[i as int] == ShiftByte32(i as bv32)
  {
    if i == 64 {} else if i == 65 {} else if i == 66 {} else if i == 67 {} else if i == 68 {} else if i == 69 {} else if i == 70 {} else {}
  }

  lemma Block32_9(i: bv8)
    requires i >> 3 == 9
    ensures Crc32Table[i as int] == ShiftByte32(i as bv32)
  {
    if i == 72 {} else if i == 73 {} else if i == 74 {} else if i == 75 {} else if i == 76 {} else if i == 77 {} else if i == 78 {} else {}
  }

  lemma Block32_10(i: bv8)
    requires i >> 3 == 10
    ensures Crc32Table[i as int] == ShiftByte32(i as bv32)
  {
    if i == 80 {} else if i == 81 {} else if i == 82 {} else if i == 83 {} else if i == 84 {} else if i == 85 {} else if i == 86 {} else {}
  }

  lemma Block32_11(i: bv8)
    requires i >> 3 == 11
    ensures Crc32Table[i as int] == ShiftByte32(i as bv32)
  {
    if i == 88 {} else if i == 89 {} else if i == 90 {} else if i == 91 {} else if i == 92 {} else if i == 93 {} else if i == 94 {} else {}
  }

  lemma Block32_12(i: bv8)
    requires i >> 3 == 12
    ensures Crc32Table[i as int] == ShiftByte32(i as bv32)
  {
    if i == 96 {} else if i == 97 {} else if i == 98 {} else if i == 99 {} else if i == 100 {} else if i == 101 {} else if i == 102 {} else {}
  }

  lemma Block32_13(i: bv8)
    requires i >> 3 == 13
    ensures Crc32Table[i as int] == ShiftByte32(i as bv32)
  {
    if i == 104 {} else if i == 105 {} else if i == 106 {} else if i == 107 {} else if i == 108 {} else if i == 109 {} else if i == 110 {} else {}
  }

  lemma Block32_14(i: bv8)
    requires i >> 3 == 14
    ensures Crc32Table[i as int] == ShiftByte32(i as bv32)
  {
    if i == 112 {} else if i == 113 {} else if i == 114 {} else if i == 115 {} else if i == 116 {} else if i == 117 {} else if i == 118 {} else {}
  }

  lemma Block32_15(i: bv8)
    requires i >> 3 == 15
    ensures Crc32Table[i as int] == ShiftByte32(i as bv32)
  {
    if i == 120 {} else if i == 121 {} else if i == 122 {} else if i == 123 {} else if i == 124 {} else if i == 125 {} else if i == 126 {} else {}
  }

  lemma Block32_16(i: bv8)
    requires i >> 3 == 16
    ensures Crc32Table[i as int] == ShiftByte32(i as bv32)
  {
    if i == 128 {} else if i == 129 {} else if i == 130 {} else if i == 131 {} else if i == 132 {} else if i == 133 {} else if i == 134 {} else {}
  }

  lemma Block32_17(i: bv8)
    requires i >> 3 == 17
    ensures Crc32Table[i as int] == ShiftByte32(i as bv32)
  {
    if i == 136 {} else if i == 137 {} else if i == 138 {} else if i == 139 {} else if i == 140 {} else if i == 141 {} else if i == 142 {} else {}
  }

  lemma Block32_18(i: bv8)
    requires i >> 3 == 18
    ensures Crc32Table[i as int] == ShiftByte32(i as bv32)
  {
    if i == 144 {} else if i == 145 {} else if i == 146 {} else if i == 147 {} else if i == 148 {} else if i == 149 {} else if i == 150 {} else {}
  }

  lemma Block32_19(i: bv8)
    requires i >> 3 == 19
    ensures Crc32Table[i as int] == ShiftByte32(i as bv32)
  {
    if i == 152 {} else if i == 153 {} else if i == 154 {} else if i == 155 {} else if i == 156 {} else if i == 157 {} else if i == 158 {} else {}
  }

  lemma Block32_20(i: bv8)
    requires i >> 3 == 20
    ensures Crc32Table[i as int] == ShiftByte32(i as bv32)
  {
    if i == 160 {} else if i == 161 {} else if i == 162 {} else if i == 163 {} else if i == 164 {} else if i == 165 {} else if i == 166 {} else {}
  }

  lemma Block32_21(i: bv8)
    requires i >> 3 == 21
    ensures Crc32Table[i as int] == ShiftByte32(i as bv32)
  {
    if i == 168 {} else if i == 169 {} else if i == 170 {} else if i == 171 {} else if i == 172 {} else if i == 173 {} else if i == 174 {} else {}
  }

  lemma Block32_22(i: bv8)
    requires i >> 3 == 22
    ensures Crc32Table[i as int] == ShiftByte32(i as bv32)
  {
    if i == 176 {} else if i == 177 {} else if i == 178 {} else if i == 179 {} else if i == 180 {} else if i == 181 {} else if i == 182 {} else {}
  }

  lemma Block32_23(i: bv8)
    requires i >> 3 == 23
    ensures Crc32Table[i as int] == ShiftByte32(i as bv32)
  {
    if i == 184 {} else if i == 185 {} else if i == 186 {} else if i == 187 {} else if i == 188 {} else if i == 189 {} else if i == 190 {} else {}
  }

  lemma Block32_24(i: bv8)
    requires i >> 3 == 24
    ensures Crc32Table[i as int] == ShiftByte32(i as bv32)
  {
    if i == 192 {} else if i == 193 {} else if i == 194 {} else if i == 195 {} else if i == 196 {} else if i == 197 {} else if i == 198 {} else {}
  }

  lemma Block32_25(i: bv8)
    requires i >> 3 == 25
    ensures Crc32Table[i as int] == ShiftByte32(i as bv32)
  {
    if i == 200 {} else if i == 201 {} else if i == 202 {} else if i == 203 {} else if i == 204 {} else if i == 205 {} else if i == 206 {} else {}
  }

  lemma Block32_26(i: bv8)
    requires i >> 3 == 26
    ensures Crc32Table[i as int] == ShiftByte32(i as bv32)
  {
    if i == 208 {} else if i == 209 {} else if i == 210 {} else if i == 211 {} else if i == 212 {} else if i == 213 {} else if i == 214 {} else {}
  }

  lemma Block32_27(i: bv8)
    requires i >> 3 == 27
    ensures Crc32Table[i as int] == ShiftByte32(i as bv32)
  {
    if i == 216 {} else if i == 217 {} else if i == 218 {} else if i == 219 {} else if i == 220 {} else if i == 221 {} else if i == 222 {} else {}
  }

  lemma Block32_28(i: bv8)
    requires i >> 3 == 28
    ensures Crc32Table[i as int] == ShiftByte32(i as bv32)
  {
    if i == 224 {} else if i == 225 {} else if i == 226 {} else if i == 227 {} else if i == 228 {} else if i == 229 {} else if i == 230 {} else {}
  }

  lemma Block32_29(i: bv8)
    requires i >> 3 == 29
    ensures Crc32Table[i as int] == ShiftByte32(i as bv32)
  {
    if i == 232 {} else if i == 233 {} else if i == 234 {} else if i == 235 {} else if i == 236 {} else if i == 237 {} else if i == 238 {} else {}
  }

  lemma Block32_30(i: bv8)
    requires i >> 3 == 30
    ensures Crc32Table[i as int] == ShiftByte32(i as bv32)
  {
    if i == 240 {} else if i == 241 {} else if i == 242 {} else if i == 243 {} else if i == 244 {} else if i == 245 {} else if i == 246 {} else {}
  }

  lemma Block32_31(i: bv8)
    requires i >> 3 == 31
    ensures Crc32Table[i as int] == ShiftByte32(i as bv32)
  {
    if i == 248 {} else if i == 249 {} else if i == 250 {} else if i == 251 {} else if i == 252 {} else if i == 253 {} else if i == 254 {} else {}
  }

  /** Entry i of CRC32_TABLE is the register value after shifting i by one byte. */
  lemma Entry32(i: bv8)
    ensures Crc32Table[i as int] == ShiftByte32(i as bv32)
  {
    if i >> 3 == 0 { Block32_0(i); }
    else if i >> 3 == 1 { Block32_1(i); }
    else if i >> 3 == 2 { Block32_2(i); }
    else if i >> 3 == 3 { Block32_3(i); }
    else if i >> 3 == 4 { Block32_4(i); }
    else if i >> 3 == 5 { Block32_5(i); }
    else if i >> 3 == 6 { Block32_6(i); }
    else if i >> 3 == 7 { Block32_7(i); }
    else if i >> 3 == 8 { Block32_8(i); }
    else if i >> 3 == 9 { Block32_9(i); }
    else if i >> 3 == 10 { Block32_10(i); }
    else if i >> 3 == 11 { Block32_11(i); }
    else if i >> 3 == 12 { Block32_12(i); }
    else if i >> 3 == 13 { Block32_13(i); }
    else if i >> 3 == 14 { Block32_14(i); }
    else if i >> 3 == 15 { Block32_15(i); }
    else if i >> 3 == 16 { Block32_16(i); }
    else if i >> 3 == 17 { Block32_17(i); }
    else if i >> 3 == 18 { Block32_18(i); }
    else if i >> 3 == 19 { Block32_19(i); }
    else if i >> 3 == 20 { Block32_20(i); }
    else if i >> 3 == 21 { Block32_21(i); }
    else if i >> 3 == 22 { Block32_22(i); }
    else if i >> 3 == 23 { Block32_23(i); }
    else if i >> 3 == 24 { Block32_24(i); }
    else if i >> 3 == 25 { Block32_25(i); }
    else if i >> 3 == 26 { Block32_26(i); }
    else if i >> 3 == 27 { Block32_27(i); }
    else if i >> 3 == 28 { Block32_28(i); }
    else if i >> 3 == 29 { Block32_29(i); }
    else if i >> 3 == 30 { Block32_30(i); }
    else { Block32_31(i); }
  }

  lemma Block64_0(i: bv8)
    requires i >> 3 == 0
    ensures Crc64Table[i as int] == ShiftByte64(i as bv64)
  {
    if i == 0 {} else if i == 1 {} else if i == 2 {} else if i == 3 {} else if i == 4 {} else if i == 5 {} else if i == 6 {} else {}
  }

  lemma Block64_1(i: bv8)
    requires i >> 3 == 1
    ensures Crc64Table[i as int] == ShiftByte64(i as bv64)
  {
    if i == 8 {} else if i == 9 {} else if i == 10 {} else if i == 11 {} else if i == 12 {} else if i == 13 {} else if i == 14 {} else {}
  }

  lemma Block64_2(i: bv8)
    requires i >> 3 == 2
    ensures Crc64Table[i as int] == ShiftByte64(i as bv64)
  {
    if i == 16 {} else if i == 17 {} else if i == 18 {} else if i == 19 {} else if i == 20 {} else if i == 21 {} else if i == 22 {} else {}
  }

  lemma Block64_3(i: bv8)
    requires i >> 3 == 3
    ensures Crc64Table[i as int] == ShiftByte64(i as bv64)
  {
    if i == 24 {} else if i == 25 {} else if i == 26 {} else if i == 27 {} else if i == 28 {} else if i == 29 {} else if i == 30 {} else {}
  }

  lemma Block64_4(i: bv8)
    requires i >> 3 == 4
    ensures Crc64Table[i as int] == ShiftByte64(i as bv64)
  {
    if i == 32 {} else if i == 33 {} else if i == 34 {} else if i == 35 {} else if i == 36 {} else if i == 37 {} else if i == 38 {} else {}
  }

  lemma Block64_5(i: bv8)
    requires i >> 3 == 5
    ensures Crc64Table[i as int] == ShiftByte64(i as bv64)
  {
    if i == 40 {} else if i == 41 {} else if i == 42 {} else if i == 43 {} else if i == 44 {} else if i == 45 {} else if i == 46 {} else {}
  }

  lemma Block64_6(i: bv8)
    requires i >> 3 == 6
    ensures Crc64Table[i as int] == ShiftByte64(i as bv64)
  {
    if i == 48 {} else if i == 49 {} else if i == 50 {} else if i == 51 {} else if i == 52 {} else if i == 53 {} else if i == 54 {} else {}
  }

  lemma Block64_7(i: bv8)
    requires i >> 3 == 7
    ensures Crc64Table[i as int] == ShiftByte64(i as bv64)
  {
    if i == 56 {} else if i == 57 {} else if i == 58 {} else if i == 59 {} else if i == 60 {} else if i == 61 {} else if i == 62 {} else {}
  }

  lemma Block64_8(i: bv8)
    requires i >> 3 == 8
    ensures Crc64Table[i as int] == ShiftByte64(i as bv64)
  {
    if i == 64 {} else if i == 65 {} else if i == 66 {} else if i == 67 {} else if i == 68 {} else if i == 69 {} else if i == 70 {} else {}
  }

  lemma Block64_9(i: bv8)
    requires i >> 3 == 9
    ensures Crc64Table[i as int] == ShiftByte64(i as bv64)
  {
    if i == 72 {} else if i == 73 {} else if i == 74 {} else if i == 75 {} else if i == 76 {} else if i == 77 {} else if i == 78 {} else {}
  }

  lemma Block64_10(i: bv8)
    requires i >> 3 == 10
    ensures Crc64Table[i as int] == ShiftByte64(i as bv64)
  {
    if i == 80 {} else if i == 81 {} else if i == 82 {} else if i == 83 {} else if i == 84 {} else if i == 85 {} else if i == 86 {} else {}
  }

  lemma Block64_11(i: bv8)
    requires i >> 3 == 11
    ensures Crc64Table[i as int] == ShiftByte64(i as bv64)
  {
    if i == 88 {} else if i == 89 {} else if i == 90 {} else if i == 91 {} else if i == 92 {} else if i == 93 {} else if i == 94 {} else {}
  }

  lemma Block64_12(i: bv8)
    requires i >> 3 == 12
    ensures Crc64Table[i as int] == ShiftByte64(i as bv64)
  {
    if i == 96 {} else if i == 97 {} else if i == 98 {} else if i == 99 {} else if i == 100 {} else if i == 101 {} else if i == 102 {} else {}
  }

  lemma Block64_13(i: bv8)
    requires i >> 3 == 13
    ensures Crc64Table[i as int] == ShiftByte64(i as bv64)
  {
    if i == 104 {} else if i == 105 {} else if i == 106 {} else if i == 107 {} else if i == 108 {} else if i == 109 {} else if i == 110 {} else {}
  }

  lemma Block64_14(i: bv8)
    requires i >> 3 == 14
    ensures Crc64Table[i as int] == ShiftByte64(i as bv64)
  {
    if i == 112 {} else if i == 113 {} else if i == 114 {} else if i == 115 {} else if i == 116 {} else if i == 117 {} else if i == 118 {} else {}
  }

  lemma Block64_15(i: bv8)
    requires i >> 3 == 15
    ensures Crc64Table[i as int] == ShiftByte64(i as bv64)
  {
    if i == 120 {} else if i == 121 {} else if i == 122 {} else if i == 123 {} else if i == 124 {} else if i == 125 {} else if i == 126 {} else {}
  }

  lemma Block64_16(i: bv8)
    requires i >> 3 == 16
    ensures Crc64Table[i as int] == ShiftByte64(i as bv64)
  {
    if i == 128 {} else if i == 129 {} else if i == 130 {} else if i == 131 {} else if i == 132 {} else if i == 133 {} else if i == 134 {} else {}
  }

  lemma Block64_17(i: bv8)
    requires i >> 3 == 17
    ensures Crc64Table[i as int] == ShiftByte64(i as bv64)
  {
    if i == 136 {} else if i == 137 {} else if i == 138 {} else if i == 139 {} else if i == 140 {} else if i == 141 {} else if i == 142 {} else {}
  }

  lemma Block64_18(i: bv8)
    requires i >> 3 == 18
    ensures Crc64Table[i as int] == ShiftByte64(i as bv64)
  {
    if i == 144 {} else if i == 145 {} else if i == 146 {} else if i == 147 {} else if i == 148 {} else if i == 149 {} else if i == 150 {} else {}
  }

  lemma Block64_19(i: bv8)
    requires i >> 3 == 19
    ensures Crc64Table[i as int] == ShiftByte64(i as bv64)
  {
    if i == 152 {} else if i == 153 {} else if i == 154 {} else if i == 155 {} else if i == 156 {} else if i == 157 {} else if i == 158 {} else {}
  }

  lemma Block64_20(i: bv8)
    requires i >> 3 == 20
    ensures Crc64Table[i as int] == ShiftByte64(i as bv64)
  {
    if i == 160 {} else if i == 161 {} else if i == 162 {} else if i == 163 {} else if i == 164 {} else if i == 165 {} else if i == 166 {} else {}
  }

  lemma Block64_21(i: bv8)
    requires i >> 3 == 21
    ensures Crc64Table[i as int] == ShiftByte64(i as bv64)
  {
    if i == 168 {} else if i == 169 {} else if i == 170 {} else if i == 171 {} else if i == 172 {} else if i == 173 {} else if i == 174 {} else {}
  }

  lemma Block64_22(i: bv8)
    requires i >> 3 == 22
    ensures Crc64Table[i as int] == ShiftByte64(i as bv64)
  {
    if i == 176 {} else if i == 177 {} else if i == 178 {} else if i == 179 {} else if i == 180 {} else if i == 181 {} else if i == 182 {} else {}
  }

  lemma Block64_23(i: bv8)
    requires i >> 3 == 23
    ensures Crc64Table[i as int] == ShiftByte64(i as bv64)
  {
    if i == 184 {} else if i == 185 {} else if i == 186 {} else if i == 187 {} else if i == 188 {} else if i == 189 {} else if i == 190 {} else {}
  }

  lemma Block64_24(i: bv8)
    requires i >> 3 == 24
    ensures Crc64Table[i as int] == ShiftByte64(i as bv64)
  {
    if i == 192 {} else if i == 193 {} else if i == 194 {} else if i == 195 {} else if i == 196 {} else if i == 197 {} else if i == 198 {} else {}
  }

  lemma Block64_25(i: bv8)
    requires i >> 3 == 25
    ensures Crc64Table[i as int] == ShiftByte64(i as bv64)
  {
    if i == 200 {} else if i == 201 {} else if i == 202 {} else if i == 203 {} else if i == 204 {} else if i == 205 {} else if i == 206 {} else {}
  }

  lemma Block64_26(i: bv8)
    requires i >> 3 == 26
    ensures Crc64Table[i as int] == ShiftByte64(i as bv64)
  {
    if i == 208 {} else if i == 209 {} else if i == 210 {} else if i == 211 {} else if i == 212 {} else if i == 213 {} else if i == 214 {} else {}
  }

  lemma Block64_27(i: bv8)
    requires i >> 3 == 27
    ensures Crc64Table[i as int] == ShiftByte64(i as bv64)
  {
    if i == 216 {} else if i == 217 {} else if i == 218 {} else if i == 219 {} else if i == 220 {} else if i == 221 {} else if i == 222 {} else {}
  }

  lemma Block64_28(i: bv8)
    requires i >> 3 == 28
    ensures Crc64Table[i as int] == ShiftByte64(i as bv64)
  {
    if i == 224 {} else if i == 225 {} else if i == 226 {} else if i == 227 {} else if i == 228 {} else if i == 229 {} else if i == 230 {} else {}
  }

  lemma Block64_29(i: bv8)
    requires i >> 3 == 29
    ensures Crc64Table[i as int] == ShiftByte64(i as bv64)
  {
    if i == 232 {} else if i == 233 {} else if i == 234 {} else if i == 235 {} else if i == 236 {} else if i == 237 {} else if i == 238 {} else {}
  }

  lemma Block64_30(i: bv8)
    requires i >> 3 == 30
    ensures Crc64Table[i as int] == ShiftByte64(i as bv64)
  {
    if i == 240 {} else if i == 241 {} else if i == 242 {} else if i == 243 {} else if i == 244 {} else if i == 245 {} else if i == 246 {} else {}
  }

  lemma Block64_31(i: bv8)
    requires i >> 3 == 31
    ensures Crc64Table[i as int] == ShiftByte64(i as bv64)
  {
    if i == 248 {} else if i == 249 {} else if i == 250 {} else if i == 251 {} else if i == 252 {} else if i == 253 {} else if i == 254 {} else {}
  }

  /** Entry i of CRC64_TABLE is the register value after shifting i by one byte. */
  lemma Entry64(i: bv8)
    ensures Crc64Table[i as int] == ShiftByte64(i as bv64)
  {
    if i >> 3 == 0 { Block64_0(i); }
    else if i >> 3 == 1 { Block64_1(i); }
    else if i >> 3 == 2 { Block64_2(i); }
    else if i >> 3 == 3 { Block64_3(i); }
    else if i >> 3 == 4 { Block64_4(i); }
    else if i >> 3 == 5 { Block64_5(i); }
    else if i >> 3 == 6 { Block64_6(i); }
    else if i >> 3 == 7 { Block64_7(i); }
    else if i >> 3 == 8 { Block64_8(i); }
    else if i >> 3 == 9 { Block64_9(i); }
    else if i >> 3 == 10 { Block64_10(i); }
    else if i >> 3 == 11 { Block64_11(i); }
    else if i >> 3 == 12 { Block64_12(i); }
    else if i >> 3 == 13 { Block64_13(i); }
    else if i >> 3 == 14 { Block64_14(i); }
    else if i >> 3 == 15 { Block64_15(i); }
    else if i >> 3 == 16 { Block64_16(i); }
    else if i >> 3 == 17 { Block64_17(i); }
    else if i >> 3 == 18 { Block64_18(i); }
    else if i >> 3 == 19 { Block64_19(i); }
    else if i >> 3 == 20 { Block64_20(i); }
    else if i >> 3 == 21 { Block64_21(i); }
    else if i >> 3 == 22 { Block64_22(i); }
    else if i >> 3 == 23 { Block64_23(i); }
    else if i >> 3 == 24 { Block64_24(i); }
    else if i >> 3 == 25 { Block64_25(i); }
    else if i >> 3 == 26 { Block64_26(i); }
    else if i >> 3 == 27 { Block64_27(i); }
    else if i >> 3 == 28 { Block64_28(i); }
    else if i >> 3 == 29 { Block64_29(i); }
    else if i >> 3 == 30 { Block64_30(i); }
    else { Block64_31(i); }
  }

  /** Entry 128 is a lone top bit that leaves the byte on the last shift: the polynomial itself. */
  lemma TablePolynomials()
    ensures Crc32Table[0] == 0 && Crc32Table[128] == Crc32Poly
    ensures Crc64Table[0] == 0 && Crc64Table[128] == Crc64Poly
  {
    Entry32(0);
    Entry32(128);
    Entry64(0);
    Entry64(128);
  }
}
