/** src/crc32.c, src/crc16.c, src/ez_crc16_xmoden.c and src/ez_mod_bus_crc16.c:
    checksums by table, proved against division bit by bit. */
module Crc {
  import opened ByteSeqs
  import Radix

  /** crc_table, sixteen entries a row. */
  function XmodemRow(r: byte): (s: seq<bv16>)
    requires r < 16
    ensures |s| == 16
  {
    if r == 0 then [0x0000, 0x1021, 0x2042, 0x3063, 0x4084, 0x50a5, 0x60c6, 0x70e7, 0x8108, 0x9129, 0xa14a, 0xb16b, 0xc18c, 0xd1ad, 0xe1ce, 0xf1ef]
    else if r == 1 then [0x1231, 0x0210, 0x3273, 0x2252, 0x52b5, 0x4294, 0x72f7, 0x62d6, 0x9339, 0x8318, 0xb37b, 0xa35a, 0xd3bd, 0xc39c, 0xf3ff, 0xe3de]
    else if r == 2 then [0x2462, 0x3443, 0x0420, 0x1401, 0x64e6, 0x74c7, 0x44a4, 0x5485, 0xa56a, 0xb54b, 0x8528, 0x9509, 0xe5ee, 0xf5cf, 0xc5ac, 0xd58d]
    else if r == 3 then [0x3653, 0x2672, 0x1611, 0x0630, 0x76d7, 0x66f6, 0x5695, 0x46b4, 0xb75b, 0xa77a, 0x9719, 0x8738, 0xf7df, 0xe7fe, 0xd79d, 0xc7bc]
    else if r == 4 then [0x48c4, 0x58e5, 0x6886, 0x78a7, 0x0840, 0x1861, 0x2802, 0x3823, 0xc9cc, 0xd9ed, 0xe98e, 0xf9af, 0x8948, 0x9969, 0xa90a, 0xb92b]
    else if r == 5 then [0x5af5, 0x4ad4, 0x7ab7, 0x6a96, 0x1a71, 0x0a50, 0x3a33, 0x2a12, 0xdbfd, 0xcbdc, 0xfbbf, 0xeb9e, 0x9b79, 0x8b58, 0xbb3b, 0xab1a]
    else if r == 6 then [0x6ca6, 0x7c87, 0x4ce4, 0x5cc5, 0x2c22, 0x3c03, 0x0c60, 0x1c41, 0xedae, 0xfd8f, 0xcdec, 0xddcd, 0xad2a, 0xbd0b, 0x8d68, 0x9d49]
    else if r == 7 then [0x7e97, 0x6eb6, 0x5ed5, 0x4ef4, 0x3e13, 0x2e32, 0x1e51, 0x0e70, 0xff9f, 0xefbe, 0xdfdd, 0xcffc, 0xbf1b, 0xaf3a, 0x9f59, 0x8f78]
    else if r == 8 then [0x9188, 0x81a9, 0xb1ca, 0xa1eb, 0xd10c, 0xc12d, 0xf14e, 0xe16f, 0x1080, 0x00a1, 0x30c2, 0x20e3, 0x5004, 0x4025, 0x7046, 0x6067]
    else if r == 9 then [0x83b9, 0x9398, 0xa3fb, 0xb3da, 0xc33d, 0xd31c, 0xe37f, 0xf35e, 0x02b1, 0x1290, 0x22f3, 0x32d2, 0x4235, 0x5214, 0x6277, 0x7256]
    else if r == 10 then [0xb5ea, 0xa5cb, 0x95a8, 0x8589, 0xf56e, 0xe54f, 0xd52c, 0xc50d, 0x34e2, 0x24c3, 0x14a0, 0x0481, 0x7466, 0x6447, 0x5424, 0x4405]
    else if r == 11 then [0xa7db, 0xb7fa, 0x8799, 0x97b8, 0xe75f, 0xf77e, 0xc71d, 0xd73c, 0x26d3, 0x36f2, 0x0691, 0x16b0, 0x6657, 0x7676, 0x4615, 0x5634]
    else if r == 12 then [0xd94c, 0xc96d, 0xf90e, 0xe92f, 0x99c8, 0x89e9, 0xb98a, 0xa9ab, 0x5844, 0x4865, 0x7806, 0x6827, 0x18c0, 0x08e1, 0x3882, 0x28a3]
    else if r == 13 then [0xcb7d, 0xdb5c, 0xeb3f, 0xfb1e, 0x8bf9, 0x9bd8, 0xabbb, 0xbb9a, 0x4a75, 0x5a54, 0x6a37, 0x7a16, 0x0af1, 0x1ad0, 0x2ab3, 0x3a92]
    else if r == 14 then [0xfd2e, 0xed0f, 0xdd6c, 0xcd4d, 0xbdaa, 0xad8b, 0x9de8, 0x8dc9, 0x7c26, 0x6c07, 0x5c64, 0x4c45, 0x3ca2, 0x2c83, 0x1ce0, 0x0cc1]
    else [0xef1f, 0xff3e, 0xcf5d, 0xdf7c, 0xaf9b, 0xbfba, 0x8fd9, 0x9ff8, 0x6e17, 0x7e36, 0x4e55, 0x5e74, 0x2e93, 0x3eb2, 0x0ed1, 0x1ef0]
  }

  /** static_signal_control_crc8_table */
  function Crc8Row(r: byte): (s: seq<byte>)
    requires r < 16
    ensures |s| == 16
  {
    if r < 8 then
      if r == 0 then [0x00, 0x5E, 0xBC, 0xE2, 0x61, 0x3F, 0xDD, 0x83, 0xC2, 0x9C, 0x7E, 0x20, 0xA3, 0xFD, 0x1F, 0x41]
      else if r == 1 then [0x9D, 0xC3, 0x21, 0x7F, 0xFC, 0xA2, 0x40, 0x1E, 0x5F, 0x01, 0xE3, 0xBD, 0x3E, 0x60, 0x82, 0xDC]
      else if r == 2 then [0x23, 0x7D, 0x9F, 0xC1, 0x42, 0x1C, 0xFE, 0xA0, 0xE1, 0xBF, 0x5D, 0x03, 0x80, 0xDE, 0x3C, 0x62]
      else if r == 3 then [0xBE, 0xE0, 0x02, 0x5C, 0xDF, 0x81, 0x63, 0x3D, 0x7C, 0x22, 0xC0, 0x9E, 0x1D, 0x43, 0xA1, 0xFF]
      else if r == 4 then [0x46, 0x18, 0xFA, 0xA4, 0x27, 0x79, 0x9B, 0xC5, 0x84, 0xDA, 0x38, 0x66, 0xE5, 0xBB, 0x59, 0x07]
      else if r == 5 then [0xDB, 0x85, 0x67, 0x39, 0xBA, 0xE4, 0x06, 0x58, 0x19, 0x47, 0xA5, 0xFB, 0x78, 0x26, 0xC4, 0x9A]
      else if r == 6 then [0x65, 0x3B, 0xD9, 0x87, 0x04, 0x5A, 0xB8, 0xE6, 0xA7, 0xF9, 0x1B, 0x45, 0xC6, 0x98, 0x7A, 0x24]
      else [0xF8, 0xA6, 0x44, 0x1A, 0x99, 0xC7, 0x25, 0x7B, 0x3A, 0x64, 0x86, 0xD8, 0x5B, 0x05, 0xE7, 0xB9]
    else
      if r == 8 then [0x8C, 0xD2, 0x30, 0x6E, 0xED, 0xB3, 0x51, 0x0F, 0x4E, 0x10, 0xF2, 0xAC, 0x2F, 0x71, 0x93, 0xCD]
      else if r == 9 then [0x11, 0x4F, 0xAD, 0xF3, 0x70, 0x2E, 0xCC, 0x92, 0xD3, 0x8D, 0x6F, 0x31, 0xB2, 0xEC, 0x0E, 0x50]
      else if r == 10 then [0xAF, 0xF1, 0x13, 0x4D, 0xCE, 0x90, 0x72, 0x2C, 0x6D, 0x33, 0xD1, 0x8F, 0x0C, 0x52, 0xB0, 0xEE]
      else if r == 11 then [0x32, 0x6C, 0x8E, 0xD0, 0x53, 0x0D, 0xEF, 0xB1, 0xF0, 0xAE, 0x4C, 0x12, 0x91, 0xCF, 0x2D, 0x73]
      else if r == 12 then [0xCA, 0x94, 0x76, 0x28, 0xAB, 0xF5, 0x17, 0x49, 0x08, 0x56, 0xB4, 0xEA, 0x69, 0x37, 0xD5, 0x8B]
      else if r == 13 then [0x57, 0x09, 0xEB, 0xB5, 0x36, 0x68, 0x8A, 0xD4, 0x95, 0xCB, 0x29, 0x77, 0xF4, 0xAA, 0x48, 0x16]
      else if r == 14 then [0xE9, 0xB7, 0x55, 0x0B, 0x88, 0xD6, 0x34, 0x6A, 0x2B, 0x75, 0x97, 0xC9, 0x4A, 0x14, 0xF6, 0xA8]
      else [0x74, 0x2A, 0xC8, 0x96, 0x15, 0x4B, 0xA9, 0xF7, 0xB6, 0xE8, 0x0A, 0x54, 0xD7, 0x89, 0x6B, 0x35]
  }

  /** __ez_crc32_table as the file holds it. */
  function Crc32Row(r: byte): (s: seq<bv32>)
    requires r < 16
    ensures |s| == 16
  {
    if r == 0 then [0x00000000, 0x77073096, 0xEE0E612C, 0x990951BA, 0x076DC419, 0x706AF48F, 0xE963A535, 0x9E6495A3, 0x0EDB8832, 0x79DCB8A4, 0xE0D5E91E, 0x97D2D988, 0x09B64C2B, 0x7EB17CBD, 0xE7B82D07, 0x90BF1D91]
    else if r == 1 then [0x1DB71064, 0x6AB020F2, 0xF3B97148, 0x84BE41DE, 0x1ADAD47D, 0x6DDDE4EB, 0xF4D4B551, 0x83D385C7, 0x136C9856, 0x646BA8C0, 0xFD62F97A, 0x8A65C9EC, 0x14015C4F, 0x63066CD9, 0xFA0F3D63, 0x8D080DF5]
    else if r == 2 then [0x3B6E20C8, 0x4C69105E, 0xD56041E4, 0xA2677172, 0x3C03E4D1, 0x4B04D447, 0xD20D85FD, 0xA50AB56B, 0x35B5A8FA, 0x42B2986C, 0xDBBBC9D6, 0xACBCF940, 0x32D86CE3, 0x45DF5C75, 0xDCD60DCF, 0xABD13D59]
    else if r == 3 then [0x26D930AC, 0x51DE003A, 0xC8D75180, 0xBFD06116, 0x21B4F4B5, 0x56B3C423, 0xCFBA9599, 0xB8BDA50F, 0x2802B89E, 0x5F058808, 0xC60CD9B2, 0xB10BE924, 0x2F6F7C87, 0x58684C11, 0xC1611DAB, 0xB6662D3D]
    else if r == 4 then [0x76DC4190, 0x01DB7106, 0x98D220BC, 0xEFD5102A, 0x71B18589, 0x06B6B51F, 0x9FBFE4A5, 0xE8B8D433, 0x7807C9A2, 0x0F00F934, 0x9609A88E, 0xE10E9818, 0x7F6A0DBB, 0x086D3D2D, 0x91646C97, 0xE6635C01]
    else if r == 5 then [0x6B6B51F4, 0x1C6C6162, 0x856530D8, 0xF262004E, 0x6C0695ED, 0x1B01A57B, 0x8208F4C1, 0xF50FC457, 0x65B0D9C6, 0x12B7E950, 0x8BBEB8EA, 0xFCB9887C, 0x62DD1DDF, 0x15DA2D49, 0x8CD37CF3, 0xFBD44C65]
    else if r == 6 then [0x4DB26158, 0x3AB551CE, 0xA3BC0074, 0xD4BB30E2, 0x4ADFA541, 0x3DD895D7, 0xA4D1C46D, 0xD3D6F4FB, 0x4369E96A, 0x346ED9FC, 0xAD678846, 0xDA60B8D0, 0x44042D73, 0x33031DE5, 0xAA0A4C5F, 0xDD0D7CC9]
    else if r == 7 then [0x5005713C, 0x270241AA, 0xBE0B1010, 0xC90C2086, 0x5768B525, 0x206F85B3, 0xB966D409, 0xCE61E49F, 0x5EDEF90E, 0x29D9C998, 0xB0D09822, 0xC7D7A8B4, 0x59B33D17, 0x2EB40D81, 0xB7BD5C3B, 0xC0BA6CAD]
    else if r == 8 then [0xEDB88320, 0x9ABFB3B6, 0x03B6E20C, 0x74B1D29A, 0xEAD54739, 0x9DD277AF, 0x04DB2615, 0x73DC1683, 0xE3630B12, 0x94643B84, 0x0D6D6A3E, 0x7A6A5AA8, 0xE40ECF0B, 0x9309FF9D, 0x0A00AE27, 0x7D079EB1]
    else if r == 9 then [0xF00F9344, 0x8708A3D2, 0x1E01F268, 0x6906C2FE, 0xF762575D, 0x806567CB, 0x196C3671, 0x6E6B06E7, 0xFED41B76, 0x89D32BE0, 0x10DA7A5A, 0x67DD4ACC, 0xF9B9DF6F, 0x8EBEEFF9, 0x17B7BE43, 0x60B08ED5]
    else if r == 10 then [0xD6D6A3E8, 0xA1D1937E, 0x38D8C2C4, 0x4FDFF252, 0xD1BB67F1, 0xA6BC5767, 0x3FB506DD, 0x48B2364B, 0xD80D2BDA, 0xAF0A1B4C, 0x36034AF6, 0x41047A60, 0xDF60EFC3, 0xA867DF55, 0x316E8EEF, 0x4669BE79]
    else if r == 11 then [0xCB61B38C, 0xBC66831A, 0x256FD2A0, 0x5268E236, 0xCC0C7795, 0xBB0B4703, 0x220216B9, 0x5505262F, 0xC5BA3BBE, 0xB2BD0B28, 0x2BB45A92, 0x5CB36A04, 0xC2D7FFA7, 0xB5D0CF31, 0x2CD99E8B, 0x5BDEAE1D]
    else if r == 12 then [0x9B64C2B0, 0xEC63F226, 0x756AA39C, 0x026D930A, 0x9C0906A9, 0xEB0E363F, 0x72076785, 0x05005713, 0x95BF4A82, 0xE2B87A14, 0x7BB12BAE, 0x0CB61B38, 0x92D28E9B, 0xE5D5BE0D, 0x7CDCEFB7, 0x0BDBDF21]
    else if r == 13 then [0x86D3D2D4, 0xF1D4E242, 0x68DDB3F8, 0x1FDA836E, 0x81BE16CD, 0xF6B9265B, 0x6FB077E1, 0x18B74777, 0x88085AE6, 0xFF0F6A70, 0x66063BCA, 0x11010B5C, 0x8F659EFF, 0xF862AE69, 0x616BFFD3, 0x166CCF45]
    else if r == 14 then [0xA00AE278, 0xD70DD2EE, 0x4E048354, 0x3903B3C2, 0xA7672661, 0xD06016F7, 0x4969474D, 0x3E6E77DB, 0xAED16A4A, 0xD9D65ADC, 0x40DF0B66, 0x37D83BF0, 0xA9BCAE53, 0xDEBB9EC5, 0x47B2CF7F, 0x30B5FFE9]
    else [0xBDBDF21C, 0xCABAC28A, 0x53B39330, 0x24B4A3A6, 0xBAD03605, 0xCDD70693, 0x54DE5729, 0x23D967BF, 0xB3667A2E, 0xC4614AB8, 0x5D681B02, 0x2A6F2B94, 0xB40BBE37, 0xC30C8EA1, 0x5A05DF1B, 0x2D02EF8D]
  }

  /** __ez_crc16_table */
  function Crc16Row(r: byte): (s: seq<bv16>)
    requires r < 16
    ensures |s| == 16
  {
    if r < 8 then
      if r == 0 then [0x0000, 0xC0C1, 0xC181, 0x0140, 0xC301, 0x03C0, 0x0280, 0xC241, 0xC601, 0x06C0, 0x0780, 0xC741, 0x0500, 0xC5C1, 0xC481, 0x0440]
      else if r == 1 then [0xCC01, 0x0CC0, 0x0D80, 0xCD41, 0x0F00, 0xCFC1, 0xCE81, 0x0E40, 0x0A00, 0xCAC1, 0xCB81, 0x0B40, 0xC901, 0x09C0, 0x0880, 0xC841]
      else if r == 2 then [0xD801, 0x18C0, 0x1980, 0xD941, 0x1B00, 0xDBC1, 0xDA81, 0x1A40, 0x1E00, 0xDEC1, 0xDF81, 0x1F40, 0xDD01, 0x1DC0, 0x1C80, 0xDC41]
      else if r == 3 then [0x1400, 0xD4C1, 0xD581, 0x1540, 0xD701, 0x17C0, 0x1680, 0xD641, 0xD201, 0x12C0, 0x1380, 0xD341, 0x1100, 0xD1C1, 0xD081, 0x1040]
      else if r == 4 then [0xF001, 0x30C0, 0x3180, 0xF141, 0x3300, 0xF3C1, 0xF281, 0x3240, 0x3600, 0xF6C1, 0xF781, 0x3740, 0xF501, 0x35C0, 0x3480, 0xF441]
      else if r == 5 then [0x3C00, 0xFCC1, 0xFD81, 0x3D40, 0xFF01, 0x3FC0, 0x3E80, 0xFE41, 0xFA01, 0x3AC0, 0x3B80, 0xFB41, 0x3900, 0xF9C1, 0xF881, 0x3840]
      else if r == 6 then [0x2800, 0xE8C1, 0xE981, 0x2940, 0xEB01, 0x2BC0, 0x2A80, 0xEA41, 0xEE01, 0x2EC0, 0x2F80, 0xEF41, 0x2D00, 0xEDC1, 0xEC81, 0x2C40]
      else [0xE401, 0x24C0, 0x2580, 0xE541, 0x2700, 0xE7C1, 0xE681, 0x2640, 0x2200, 0xE2C1, 0xE381, 0x2340, 0xE101, 0x21C0, 0x2080, 0xE041]
    else
      if r == 8 then [0xA001, 0x60C0, 0x6180, 0xA141, 0x6300, 0xA3C1, 0xA281, 0x6240, 0x6600, 0xA6C1, 0xA781, 0x6740, 0xA501, 0x65C0, 0x6480, 0xA441]
      else if r == 9 then [0x6C00, 0xACC1, 0xAD81, 0x6D40, 0xAF01, 0x6FC0, 0x6E80, 0xAE41, 0xAA01, 0x6AC0, 0x6B80, 0xAB41, 0x6900, 0xA9C1, 0xA881, 0x6840]
      else if r == 10 then [0x7800, 0xB8C1, 0xB981, 0x7940, 0xBB01, 0x7BC0, 0x7A80, 0xBA41, 0xBE01, 0x7EC0, 0x7F80, 0xBF41, 0x7D00, 0xBDC1, 0xBC81, 0x7C40]
      else if r == 11 then [0xB401, 0x74C0, 0x7580, 0xB541, 0x7700, 0xB7C1, 0xB681, 0x7640, 0x7200, 0xB2C1, 0xB381, 0x7340, 0xB101, 0x71C0, 0x7080, 0xB041]
      else if r == 12 then [0x5000, 0x90C1, 0x9181, 0x5140, 0x9301, 0x53C0, 0x5280, 0x9241, 0x9601, 0x56C0, 0x5780, 0x9741, 0x5500, 0x95C1, 0x9481, 0x5440]
      else if r == 13 then [0x9C01, 0x5CC0, 0x5D80, 0x9D41, 0x5F00, 0x9FC1, 0x9E81, 0x5E40, 0x5A00, 0x9AC1, 0x9B81, 0x5B40, 0x9901, 0x59C0, 0x5880, 0x9841]
      else if r == 14 then [0x8801, 0x48C0, 0x4980, 0x8941, 0x4B00, 0x8BC1, 0x8A81, 0x4A40, 0x4E00, 0x8EC1, 0x8F81, 0x4F40, 0x8D01, 0x4DC0, 0x4C80, 0x8C41]
      else [0x4400, 0x84C1, 0x8581, 0x4540, 0x8701, 0x47C0, 0x4680, 0x8641, 0x8201, 0x42C0, 0x4380, 0x8341, 0x4100, 0x81C1, 0x8081, 0x4040]
  }

  /** auchCRCHi */
  function HighRow(r: byte): (s: seq<byte>)
    requires r < 16
    ensures |s| == 16
  {
    if r < 8 then
      if r == 0 then [0x00, 0xC1, 0x81, 0x40, 0x01, 0xC0, 0x80, 0x41, 0x01, 0xC0, 0x80, 0x41, 0x00, 0xC1, 0x81, 0x40]
      else if r == 1 then [0x01, 0xC0, 0x80, 0x41, 0x00, 0xC1, 0x81, 0x40, 0x00, 0xC1, 0x81, 0x40, 0x01, 0xC0, 0x80, 0x41]
      else if r == 2 then [0x01, 0xC0, 0x80, 0x41, 0x00, 0xC1, 0x81, 0x40, 0x00, 0xC1, 0x81, 0x40, 0x01, 0xC0, 0x80, 0x41]
      else if r == 3 then [0x00, 0xC1, 0x81, 0x40, 0x01, 0xC0, 0x80, 0x41, 0x01, 0xC0, 0x80, 0x41, 0x00, 0xC1, 0x81, 0x40]
      else if r == 4 then [0x01, 0xC0, 0x80, 0x41, 0x00, 0xC1, 0x81, 0x40, 0x00, 0xC1, 0x81, 0x40, 0x01, 0xC0, 0x80, 0x41]
      else if r == 5 then [0x00, 0xC1, 0x81, 0x40, 0x01, 0xC0, 0x80, 0x41, 0x01, 0xC0, 0x80, 0x41, 0x00, 0xC1, 0x81, 0x40]
      else if r == 6 then [0x00, 0xC1, 0x81, 0x40, 0x01, 0xC0, 0x80, 0x41, 0x01, 0xC0, 0x80, 0x41, 0x00, 0xC1, 0x81, 0x40]
      else [0x01, 0xC0, 0x80, 0x41, 0x00, 0xC1, 0x81, 0x40, 0x00, 0xC1, 0x81, 0x40, 0x01, 0xC0, 0x80, 0x41]
    else
      if r == 8 then [0x01, 0xC0, 0x80, 0x41, 0x00, 0xC1, 0x81, 0x40, 0x00, 0xC1, 0x81, 0x40, 0x01, 0xC0, 0x80, 0x41]
      else if r == 9 then [0x00, 0xC1, 0x81, 0x40, 0x01, 0xC0, 0x80, 0x41, 0x01, 0xC0, 0x80, 0x41, 0x00, 0xC1, 0x81, 0x40]
      else if r == 10 then [0x00, 0xC1, 0x81, 0x40, 0x01, 0xC0, 0x80, 0x41, 0x01, 0xC0, 0x80, 0x41, 0x00, 0xC1, 0x81, 0x40]
      else if r == 11 then [0x01, 0xC0, 0x80, 0x41, 0x00, 0xC1, 0x81, 0x40, 0x00, 0xC1, 0x81, 0x40, 0x01, 0xC0, 0x80, 0x41]
      else if r == 12 then [0x00, 0xC1, 0x81, 0x40, 0x01, 0xC0, 0x80, 0x41, 0x01, 0xC0, 0x80, 0x41, 0x00, 0xC1, 0x81, 0x40]
      else if r == 13 then [0x01, 0xC0, 0x80, 0x41, 0x00, 0xC1, 0x81, 0x40, 0x00, 0xC1, 0x81, 0x40, 0x01, 0xC0, 0x80, 0x41]
      else if r == 14 then [0x01, 0xC0, 0x80, 0x41, 0x00, 0xC1, 0x81, 0x40, 0x00, 0xC1, 0x81, 0x40, 0x01, 0xC0, 0x80, 0x41]
      else [0x00, 0xC1, 0x81, 0x40, 0x01, 0xC0, 0x80, 0x41, 0x01, 0xC0, 0x80, 0x41, 0x00, 0xC1, 0x81, 0x40]
  }

  /** auchCRCLo */
  function LowRow(r: byte): (s: seq<byte>)
    requires r < 16
    ensures |s| == 16
  {
    if r < 8 then
      if r == 0 then [0x00, 0xC0, 0xC1, 0x01, 0xC3, 0x03, 0x02, 0xC2, 0xC6, 0x06, 0x07, 0xC7, 0x05, 0xC5, 0xC4, 0x04]
      else if r == 1 then [0xCC, 0x0C, 0x0D, 0xCD, 0x0F, 0xCF, 0xCE, 0x0E, 0x0A, 0xCA, 0xCB, 0x0B, 0xC9, 0x09, 0x08, 0xC8]
      else if r == 2 then [0xD8, 0x18, 0x19, 0xD9, 0x1B, 0xDB, 0xDA, 0x1A, 0x1E, 0xDE, 0xDF, 0x1F, 0xDD, 0x1D, 0x1C, 0xDC]
      else if r == 3 then [0x14, 0xD4, 0xD5, 0x15, 0xD7, 0x17, 0x16, 0xD6, 0xD2, 0x12, 0x13, 0xD3, 0x11, 0xD1, 0xD0, 0x10]
      else if r == 4 then [0xF0, 0x30, 0x31, 0xF1, 0x33, 0xF3, 0xF2, 0x32, 0x36, 0xF6, 0xF7, 0x37, 0xF5, 0x35, 0x34, 0xF4]
      else if r == 5 then [0x3C, 0xFC, 0xFD, 0x3D, 0xFF, 0x3F, 0x3E, 0xFE, 0xFA, 0x3A, 0x3B, 0xFB, 0x39, 0xF9, 0xF8, 0x38]
      else if r == 6 then [0x28, 0xE8, 0xE9, 0x29, 0xEB, 0x2B, 0x2A, 0xEA, 0xEE, 0x2E, 0x2F, 0xEF, 0x2D, 0xED, 0xEC, 0x2C]
      else [0xE4, 0x24, 0x25, 0xE5, 0x27, 0xE7, 0xE6, 0x26, 0x22, 0xE2, 0xE3, 0x23, 0xE1, 0x21, 0x20, 0xE0]
    else
      if r == 8 then [0xA0, 0x60, 0x61, 0xA1, 0x63, 0xA3, 0xA2, 0x62, 0x66, 0xA6, 0xA7, 0x67, 0xA5, 0x65, 0x64, 0xA4]
      else if r == 9 then [0x6C, 0xAC, 0xAD, 0x6D, 0xAF, 0x6F, 0x6E, 0xAE, 0xAA, 0x6A, 0x6B, 0xAB, 0x69, 0xA9, 0xA8, 0x68]
      else if r == 10 then [0x78, 0xB8, 0xB9, 0x79, 0xBB, 0x7B, 0x7A, 0xBA, 0xBE, 0x7E, 0x7F, 0xBF, 0x7D, 0xBD, 0xBC, 0x7C]
      else if r == 11 then [0xB4, 0x74, 0x75, 0xB5, 0x77, 0xB7, 0xB6, 0x76, 0x72, 0xB2, 0xB3, 0x73, 0xB1, 0x71, 0x70, 0xB0]
      else if r == 12 then [0x50, 0x90, 0x91, 0x51, 0x93, 0x53, 0x52, 0x92, 0x96, 0x56, 0x57, 0x97, 0x55, 0x95, 0x94, 0x54]
      else if r == 13 then [0x9C, 0x5C, 0x5D, 0x9D, 0x5F, 0x9F, 0x9E, 0x5E, 0x5A, 0x9A, 0x9B, 0x5B, 0x99, 0x59, 0x58, 0x98]
      else if r == 14 then [0x88, 0x48, 0x49, 0x89, 0x4B, 0x8B, 0x8A, 0x4A, 0x4E, 0x8E, 0x8F, 0x4F, 0x8D, 0x4D, 0x4C, 0x8C]
      else [0x44, 0x84, 0x85, 0x45, 0x87, 0x47, 0x46, 0x86, 0x82, 0x42, 0x43, 0x83, 0x41, 0x81, 0x80, 0x40]
  }

  // ----- division bit by bit

  /** One bit of division by the reflected polynomial. */
  function Bit32(c: bv32): bv32 { if c & 1 != 0 then (c >> 1) ^ 0xEDB88320 else c >> 1 }

  function Bits32(c: bv32, n: nat): bv32 { if n == 0 then c else Bit32(Bits32(c, n - 1)) }

  function Nibble32(c: bv32): bv32 { Bit32(Bit32(Bit32(Bit32(c)))) }

  function Byte32(c: bv32): bv32 { Nibble32(Nibble32(c)) }

  /** The register after a message has been divided, lowest bit of each byte first. */
  function Divide32(c: bv32, msg: seq<byte>): bv32 {
    if msg == [] then c else Byte32(Enter32(Divide32(c, msg[..|msg| - 1]), msg[|msg| - 1]))
  }

  // ----- CRC-32

  function Place(b: byte): (i: nat)
    ensures i < 256
  {
    b as nat
  }

  /** Entries below n hold the division of their index alone. */
  ghost predicate FilledTo(t: seq<bv32>, n: nat) {
    |t| == 256 && forall b: byte :: Place(b) < n ==> t[Place(b)] == Byte32(b as bv32)
  }

  ghost predicate IsTable(t: seq<bv32>) { FilledTo(t, 256) }

  lemma BitsEight(c: bv32)
    ensures Bits32(c, 8) == Byte32(c)
  {
    hide Bit32;
    assert Bits32(c, 1) == Bit32(c);
    assert Bits32(c, 3) == Bit32(Bit32(Bits32(c, 1)));
    assert Bits32(c, 5) == Bit32(Bit32(Bits32(c, 3)));
    assert Bits32(c, 7) == Bit32(Bit32(Bits32(c, 5)));
  }

  function Low4(c: bv32): bv32 { c & 0xF }

  function Low8(c: bv32): bv32 { c & 0xFF }

  /** r is what s becomes once the bits of c above the lowest n are moved down on it. */
  predicate Moved4(c: bv32, s: bv32, r: bv32) { r == (c >> 4) ^ s }

  predicate Moved8(c: bv32, s: bv32, r: bv32) { r == (c >> 8) ^ s }

  /** Bits that stay in the register only move down. */
  lemma NibbleSplit(c: bv32)
    ensures Moved4(c, Nibble32(Low4(c)), Nibble32(c))
  {
  }

  lemma LowLow(c: bv32)
    ensures Low4(Low8(c)) == Low4(c)
  {
  }

  lemma LowNibbles(c: bv32, n: bv32, x: bv32, y: bv32, m: bv32, r: bv32, s: bv32)
    requires Moved4(c, n, x) && Moved4(Low8(c), n, y) 
    ensures Low4(x) == Low4(y)
    ensures Moved4(x, m, r) && Moved4(y, m, s) ==> Moved8(c, s, r)
  {
  }

  lemma ByteSplit(c: bv32)
    ensures Moved8(c, Byte32(Low8(c)), Byte32(c))
  {
    hide Nibble32, Moved4, Moved8, Low4, Low8;
    var n, x, y := Nibble32(Low4(c)), Nibble32(c), Nibble32(Low8(c));
    NibbleSplit(c);
    NibbleSplit(Low8(c));
    LowLow(c);
    LowNibbles(c, n, x, y, Nibble32(Low4(x)), Byte32(c), Byte32(Low8(c)));
    NibbleSplit(x);
    NibbleSplit(y);
  }

  function Enter32(c: bv32, b: byte): bv32 { c ^ (b as bv32) }

  /** The byte that the table is looked up with. */
  function Index32(c: bv32, b: byte): byte { ((c ^ (b as bv32)) & 0xFF) as byte }

  /** The table form of a step: s is what the table holds. */
  function Update32(c: bv32, s: bv32): bv32 { ((c >> 8) & 0x00FFFFFF) ^ s }

  lemma EnterByte(c: bv32, b: byte, s: bv32, r: bv32)
    ensures Low8(Enter32(c, b)) == Index32(c, b) as bv32
    ensures Moved8(Enter32(c, b), s, r) ==> r == Update32(c, s)
  {
  }

  /** Taking a whole byte at once through the table. */
  lemma ByteByTable(c: bv32, b: byte)
    ensures Byte32(Enter32(c, b)) == Update32(c, Byte32(Index32(c, b) as bv32))
  {
    hide Byte32, Index32, Enter32, Update32, Low8, Moved8;
    var s, r := Byte32(Index32(c, b) as bv32), Byte32(Enter32(c, b));
    EnterByte(c, b, s, r);
    ByteSplit(Enter32(c, b));
  }

  lemma NextByte(b: byte)
    requires Place(b) < 255
    ensures b < 255 && Place(b + 1) == Place(b) + 1
  {
  }

  lemma SameByte(b: byte, c: byte)
    requires Place(b) == Place(c)
    ensures b == c
  {
  }

  /** ez_crc32_gentable, one entry */
  method TableEntry(b: byte) returns (crc: bv32)
    ensures crc == Byte32(b as bv32)
  {
    BitsEight(b as bv32);
    hide Byte32;
    crc := b as bv32;
    var j := 8;
    while j > 0
      invariant 0 <= j <= 8 && crc == Bits32(b as bv32, 8 - j)
    {
      if crc & 1 != 0 {
        crc := (crc >> 1) ^ 0xEDB88320;
      } else {
        crc := crc >> 1;
      }
      j := j - 1;
    }
  }

  lemma EntryWritten(was: seq<bv32>, t: seq<bv32>, b: byte)
    requires FilledTo(was, Place(b)) && t == was[Place(b) := Byte32(b as bv32)]
    ensures FilledTo(t, Place(b) + 1)
  {
    hide Byte32, Place;
    forall x: byte | Place(x) < Place(b) + 1 ensures t[Place(x)] == Byte32(x as bv32) {
      if Place(x) == Place(b) { SameByte(x, b); }
    }
  }

  /** ez_crc32_gentable */
  method GenTable(table: array<bv32>)
    requires table.Length == 256
    modifies table
    ensures IsTable(table[..])
  {
    var b: byte := 0;
    assert Place(b) == 0;
    hide Byte32, Place;
    for i := 0 to 256
      invariant i < 256 ==> Place(b) == i
      invariant FilledTo(table[..], i)
    {
      ghost var was := table[..];
      table[i] := TableEntry(b);
      EntryWritten(was, table[..], b);
      if i < 255 {
        NextByte(b);
        b := b + 1;
      }
    }
  }

  /** The register starts with ones and is turned over at the end. */
  function Checksum32(msg: seq<byte>): bv32 { Divide32(0xFFFFFFFF, msg) ^ 0xFFFFFFFF }

  /** ez_crc32: the table form is the division. */
  method Crc32(buffer: seq<byte>, table: seq<bv32>) returns (r: bv32)
    requires IsTable(table)
    ensures r == Checksum32(buffer)
  {
    hide Byte32, Enter32, Index32, Place, Update32;
    var crc: bv32 := 0xFFFFFFFF;
    var i := 0;
    while i < |buffer|
      invariant 0 <= i <= |buffer| && crc == Divide32(0xFFFFFFFF, buffer[..i])
    {
      assert buffer[..i + 1][..i] == buffer[..i];
      ByteByTable(crc, buffer[i]);
      crc := Update32(crc, table[Place(Index32(crc, buffer[i]))]);
      i := i + 1;
    }
    assert buffer[..i] == buffer;
    return crc ^ 0xFFFFFFFF;
  }

  function Divided32(r: bv32): seq<bv32> {
    [Byte32(r), Byte32(r | 1), Byte32(r | 2), Byte32(r | 3), Byte32(r | 4), Byte32(r | 5), Byte32(r | 6), Byte32(r | 7),
     Byte32(r | 8), Byte32(r | 9), Byte32(r | 10), Byte32(r | 11), Byte32(r | 12), Byte32(r | 13), Byte32(r | 14), Byte32(r | 15)]
  }

  lemma Row32(r: byte)
    requires r < 16
    ensures Crc32Row(r) == Divided32((r as bv32) << 4)
  {
    if r == 0 {} else if r == 1 {} else if r == 2 {} else if r == 3 {}
    else if r == 4 {} else if r == 5 {} else if r == 6 {} else if r == 7 {}
    else if r == 8 {} else if r == 9 {} else if r == 10 {} else if r == 11 {}
    else if r == 12 {} else if r == 13 {} else if r == 14 {}
  }

  lemma Pick32(r: bv32, l: byte)
    requires l < 16
    ensures Place(l) < 16 && Divided32(r)[Place(l)] == Byte32(r | (l as bv32))
  {
    hide Byte32, Divided32, Place;
    if l < 8 {
      Lower32(r, l);
    } else {
      Upper32(r, l);
    }
  }

  lemma Lower32(r: bv32, l: byte)
    requires l < 8
    ensures Place(l) < 16 && Divided32(r)[Place(l)] == Byte32(r | (l as bv32))
  {
    hide Byte32;
    Sixteen(l);
    if l == 0 { assert r | 0 == r; }
  }

  lemma Upper32(r: bv32, l: byte)
    requires 8 <= l < 16
    ensures Place(l) < 16 && Divided32(r)[Place(l)] == Byte32(r | (l as bv32))
  {
    hide Byte32;
    Sixteen(l);
  }

  lemma Join32(b: byte)
    ensures (((b >> 4) as bv32) << 4) | ((b & 0xF) as bv32) == b as bv32 && b >> 4 < 16 && b & 0xF < 16
  {
  }

  /** The table that the file starts with is the one that is generated. */
  lemma Table32Divides(b: byte)
    ensures b >> 4 < 16 && Place(b & 0xF) < 16 && Crc32Row(b >> 4)[Place(b & 0xF)] == Byte32(b as bv32)
  {
    hide Byte32, Crc32Row, Divided32, Place;
    Join32(b);
    Row32(b >> 4);
    Pick32(((b >> 4) as bv32) << 4, b & 0xF);
  }

  // ----- CRC-8, lowest bit first

  function Bit8(c: byte): byte { if c & 1 != 0 then (c >> 1) ^ 0x8C else c >> 1 }

  function Byte8(c: byte): byte { Bit8(Bit8(Bit8(Bit8(Bit8(Bit8(Bit8(Bit8(c)))))))) }

  function Divide8(c: byte, msg: seq<byte>): byte {
    if msg == [] then c else Byte8(Divide8(c, msg[..|msg| - 1]) ^ msg[|msg| - 1])
  }

  function Table8(b: byte): byte { Nibbles(b); Crc8Row(b >> 4)[Place(b & 0xF)] }

  function Divided8(r: byte): seq<byte> {
    [Byte8(r), Byte8(r | 1), Byte8(r | 2), Byte8(r | 3), Byte8(r | 4), Byte8(r | 5), Byte8(r | 6), Byte8(r | 7),
     Byte8(r | 8), Byte8(r | 9), Byte8(r | 10), Byte8(r | 11), Byte8(r | 12), Byte8(r | 13), Byte8(r | 14), Byte8(r | 15)]
  }

  lemma Row8(r: byte)
    requires r < 16
    ensures Crc8Row(r) == Divided8(r << 4)
  {
    if r == 0 {} else if r == 1 {} else if r == 2 {} else if r == 3 {}
    else if r == 4 {} else if r == 5 {} else if r == 6 {} else if r == 7 {}
    else if r == 8 {} else if r == 9 {} else if r == 10 {} else if r == 11 {}
    else if r == 12 {} else if r == 13 {} else if r == 14 {}
  }

  lemma Pick8(r: byte, l: byte)
    requires l < 16
    ensures Place(l) < 16 && Divided8(r)[Place(l)] == Byte8(r | l)
  {
    hide Byte8, Divided8, Place;
    if l < 8 {
      Lower8(r, l);
    } else {
      Upper8(r, l);
    }
  }

  lemma Lower8(r: byte, l: byte)
    requires l < 8
    ensures Place(l) < 16 && Divided8(r)[Place(l)] == Byte8(r | l)
  {
    hide Byte8;
    Sixteen(l);
    if l == 0 { assert r | 0 == r; }
  }

  lemma Upper8(r: byte, l: byte)
    requires 8 <= l < 16
    ensures Place(l) < 16 && Divided8(r)[Place(l)] == Byte8(r | l)
  {
    hide Byte8;
    Sixteen(l);
  }

  lemma Join8(b: byte)
    ensures ((b >> 4) << 4) | (b & 0xF) == b && b >> 4 < 16 && b & 0xF < 16
  {
  }

  /** The table is the division of each byte alone. */
  lemma Table8Divides(b: byte)
    ensures Table8(b) == Byte8(b)
  {
    hide Byte8, Crc8Row, Divided8, Place;
    Join8(b);
    Row8(b >> 4);
    Pick8((b >> 4) << 4, b & 0xF);
  }

  /** The same table as one sequence. */
  function Crc8Table(): (t: seq<byte>)
    ensures |t| == 256
  {
    seq(256, i requires 0 <= i < 256 => Radix.AsByte(i); Table8(i as byte))
  }

  lemma Crc8TableAt(b: byte)
    ensures Crc8Table()[Place(b)] == Table8(b)
  {
    hide Table8;
    Radix.AsByte(Place(b));
    SameByte(Place(b) as byte, b);
  }

  // ----- CRC-16, lowest bit first

  function Bit16(c: bv16): bv16 { if c & 1 != 0 then (c >> 1) ^ 0xA001 else c >> 1 }

  function Byte16(c: bv16): bv16 { Bit16(Bit16(Bit16(Bit16(Bit16(Bit16(Bit16(Bit16(c)))))))) }

  function Enter16(c: bv16, b: byte): bv16 { c ^ (b as bv16) }

  function Divide16(c: bv16, msg: seq<byte>): bv16 {
    if msg == [] then c else Byte16(Enter16(Divide16(c, msg[..|msg| - 1]), msg[|msg| - 1]))
  }

  lemma Nibbles(b: byte)
    ensures b >> 4 < 16 && Place(b & 0xF) < 16
  {
  }

  function Table16(b: byte): bv16 { Nibbles(b); Crc16Row(b >> 4)[Place(b & 0xF)] }

  function Divided16(r: bv16): seq<bv16> {
    [Byte16(r), Byte16(r | 1), Byte16(r | 2), Byte16(r | 3), Byte16(r | 4), Byte16(r | 5), Byte16(r | 6), Byte16(r | 7),
     Byte16(r | 8), Byte16(r | 9), Byte16(r | 10), Byte16(r | 11), Byte16(r | 12), Byte16(r | 13), Byte16(r | 14), Byte16(r | 15)]
  }

  lemma Row16(r: byte)
    requires r < 16
    ensures Crc16Row(r) == Divided16((r as bv16) << 4)
  {
    if r == 0 {} else if r == 1 {} else if r == 2 {} else if r == 3 {}
    else if r == 4 {} else if r == 5 {} else if r == 6 {} else if r == 7 {}
    else if r == 8 {} else if r == 9 {} else if r == 10 {} else if r == 11 {}
    else if r == 12 {} else if r == 13 {} else if r == 14 {}
  }

  /** A nibble is one of sixteen. */
  lemma Sixteen(l: byte)
    requires l < 16
    ensures l == 0 || l == 1 || l == 2 || l == 3 || l == 4 || l == 5 || l == 6 || l == 7
         || l == 8 || l == 9 || l == 10 || l == 11 || l == 12 || l == 13 || l == 14 || l == 15
  {
  }

  lemma Pick16(r: bv16, l: byte)
    requires l < 16
    ensures Place(l) < 16 && Divided16(r)[Place(l)] == Byte16(r | (l as bv16))
  {
    hide Byte16;
    Sixteen(l);
    if l == 0 { assert r | 0 == r; }
  }

  lemma Join16(b: byte)
    ensures (((b >> 4) as bv16) << 4) | ((b & 0xF) as bv16) == b as bv16 && b >> 4 < 16 && b & 0xF < 16
  {
  }

  /** The table is the division of each byte alone. */
  lemma Table16Divides(b: byte)
    ensures Table16(b) == Byte16(b as bv16)
  {
    hide Byte16, Crc16Row, Divided16, Place;
    Join16(b);
    Row16(b >> 4);
    Pick16(((b >> 4) as bv16) << 4, b & 0xF);
  }

  function Index16(c: bv16, b: byte): byte { ((c ^ (b as bv16)) & 0xFF) as byte }

  function Update16(c: bv16, s: bv16): bv16 { (c >> 8) ^ s }

  lemma ByteByTable16(c: bv16, b: byte)
    ensures Byte16(Enter16(c, b)) == Update16(c, Byte16(Index16(c, b) as bv16))
  {
  }

  lemma Crc16Byte(c: bv16, b: byte)
    ensures Update16(c, Table16(Index16(c, b))) == Byte16(Enter16(c, b))
  {
    hide Byte16, Enter16, Update16, Table16;
    Table16Divides(Index16(c, b));
    ByteByTable16(c, b);
  }

  lemma Divide16More(c: bv16, msg: seq<byte>, i: nat)
    requires i < |msg|
    ensures Divide16(c, msg[..i + 1]) == Byte16(Enter16(Divide16(c, msg[..i]), msg[i]))
  {
    hide Byte16, Enter16;
    assert msg[..i + 1][..i] == msg[..i];
  }

  /** ez_crc16, with __ez_crc16_byte in its loop. */
  method Crc16(crc0: bv16, buffer: seq<byte>) returns (crc: bv16)
    ensures crc == Divide16(crc0, buffer)
  {
    hide Byte16, Enter16, Update16, Table16, Index16;
    crc := crc0;
    var i := 0;
    while i < |buffer|
      invariant 0 <= i <= |buffer| && crc == Divide16(crc0, buffer[..i])
    {
      Crc16Byte(crc, buffer[i]);
      Divide16More(crc0, buffer, i);
      crc := Update16(crc, Table16(Index16(crc, buffer[i])));
      i := i + 1;
    }
    assert buffer[..i] == buffer;
  }

  // ----- the same CRC-16 kept in two bytes

  function High(b: byte): byte { Nibbles(b); HighRow(b >> 4)[Place(b & 0xF)] }

  function Low(b: byte): byte { Nibbles(b); LowRow(b >> 4)[Place(b & 0xF)] }

  function Join(h: byte, l: byte): bv16 { ((h as bv16) << 8) | (l as bv16) }

  function Swap(c: bv16): bv16 { (c << 8) | (c >> 8) }

  /** Two rows of bytes as a row of words. */
  function Joined(h: seq<byte>, l: seq<byte>): seq<bv16>
    requires |h| == 16 && |l| == 16
  {
    [Join(h[0], l[0]), Join(h[1], l[1]), Join(h[2], l[2]), Join(h[3], l[3]),
     Join(h[4], l[4]), Join(h[5], l[5]), Join(h[6], l[6]), Join(h[7], l[7]),
     Join(h[8], l[8]), Join(h[9], l[9]), Join(h[10], l[10]), Join(h[11], l[11]),
     Join(h[12], l[12]), Join(h[13], l[13]), Join(h[14], l[14]), Join(h[15], l[15])]
  }

  lemma JoinedAt(h: seq<byte>, l: seq<byte>, k: nat)
    requires |h| == 16 && |l| == 16 && k < 16
    ensures |Joined(h, l)| == 16 && Joined(h, l)[k] == Join(h[k], l[k])
  {
    hide Join;
    if k == 0 {} else if k == 1 {} else if k == 2 {} else if k == 3 {}
    else if k == 4 {} else if k == 5 {} else if k == 6 {} else if k == 7 {}
    else if k == 8 {} else if k == 9 {} else if k == 10 {} else if k == 11 {}
    else if k == 12 {} else if k == 13 {} else if k == 14 {}
  }

  lemma JoinedRow(r: byte)
    requires r < 16
    ensures Crc16Row(r) == Joined(LowRow(r), HighRow(r))
  {
    if r < 8 { JoinedLowRows(r); } else { JoinedHighRows(r); }
    hide Crc16Row, LowRow, HighRow, Joined;
  }

  lemma JoinedLowRows(r: byte)
    requires r < 8
    ensures Crc16Row(r) == Joined(LowRow(r), HighRow(r))
  {
    if r == 0 {} else if r == 1 {} else if r == 2 {} else if r == 3 {} else if r == 4 {} else if r == 5 {} else if r == 6 {}
  }

  lemma JoinedHighRows(r: byte)
    requires 8 <= r < 16
    ensures Crc16Row(r) == Joined(LowRow(r), HighRow(r))
  {
    if r == 8 {} else if r == 9 {} else if r == 10 {} else if r == 11 {} else if r == 12 {} else if r == 13 {} else if r == 14 {}
  }

  lemma SplitTable(b: byte)
    ensures Table16(b) == Join(Low(b), High(b))
  {
    Nibbles(b);
    hide Crc16Row, LowRow, HighRow, Join, Joined, Place;
    JoinedRow(b >> 4);
    JoinedAt(LowRow(b >> 4), HighRow(b >> 4), Place(b & 0xF));
  }

  /** One step on the two bytes is one step on their swapped join. */
  lemma ModbusByte(h: byte, l: byte, b: byte, x: byte, y: byte)
    ensures Index16(Join(l, h), b) == h ^ b
    ensures Update16(Join(l, h), Join(y, x)) == Join(y, l ^ x)
  {
  }

  lemma SwapJoin(h: byte, l: byte)
    ensures Join(h, l) == Swap(Join(l, h)) && Join(0xFF, 0xFF) == 0xFFFF
  {
  }

  /** ez_modbus_crc16: the byte swap of the CRC-16 started at 0xFFFF. */
  method ModbusCrc16(updata: seq<byte>) returns (crc: bv16)
    ensures crc == Swap(Divide16(0xFFFF, updata))
  {
    hide Byte16, Enter16, Update16, Table16, Index16, High, Low, Join, Swap;
    var hi: byte, lo: byte := 0xFF, 0xFF;
    SwapJoin(hi, lo);
    var i := 0;
    while i < |updata|
      invariant 0 <= i <= |updata| && Join(lo, hi) == Divide16(0xFFFF, updata[..i])
    {
      var index := hi ^ updata[i];
      ModbusByte(hi, lo, updata[i], High(index), Low(index));
      SplitTable(index);
      Crc16Byte(Join(lo, hi), updata[i]);
      Divide16More(0xFFFF, updata, i);
      hi := lo ^ High(index);
      lo := Low(index);
      i := i + 1;
    }
    assert updata[..i] == updata;
    SwapJoin(hi, lo);
    return Join(hi, lo);
  }

  // ----- CRC-16 XMODEM, highest bit first

  function BitX(c: bv16): bv16 { if c & 0x8000 != 0 then (c << 1) ^ 0x1021 else c << 1 }

  function NibbleX(c: bv16): bv16 { BitX(BitX(BitX(BitX(c)))) }

  function ByteX(c: bv16): bv16 { NibbleX(NibbleX(c)) }

  function EnterX(c: bv16, b: byte): bv16 { c ^ ((b as bv16) << 8) }

  function DivideX(c: bv16, msg: seq<byte>): bv16 {
    if msg == [] then c else ByteX(EnterX(DivideX(c, msg[..|msg| - 1]), msg[|msg| - 1]))
  }

  function TableX(b: byte): bv16 { Nibbles(b); XmodemRow(b >> 4)[Place(b & 0xF)] }

  function DividedX(r: bv16): seq<bv16> {
    [ByteX(r), ByteX(r | 0x100), ByteX(r | 0x200), ByteX(r | 0x300), ByteX(r | 0x400), ByteX(r | 0x500), ByteX(r | 0x600), ByteX(r | 0x700),
     ByteX(r | 0x800), ByteX(r | 0x900), ByteX(r | 0xA00), ByteX(r | 0xB00), ByteX(r | 0xC00), ByteX(r | 0xD00), ByteX(r | 0xE00), ByteX(r | 0xF00)]
  }

  lemma RowX(r: byte)
    requires r < 16
    ensures XmodemRow(r) == DividedX((r as bv16) << 12)
  {
    if r == 0 {} else if r == 1 {} else if r == 2 {} else if r == 3 {}
    else if r == 4 {} else if r == 5 {} else if r == 6 {} else if r == 7 {}
    else if r == 8 {} else if r == 9 {} else if r == 10 {} else if r == 11 {}
    else if r == 12 {} else if r == 13 {} else if r == 14 {}
  }

  lemma PickX(r: bv16, l: byte)
    requires l < 16
    ensures Place(l) < 16 && DividedX(r)[Place(l)] == ByteX(r | ((l as bv16) << 8))
  {
    hide ByteX;
    Sixteen(l);
    if l == 0 { assert r | 0 == r; }
  }

  lemma JoinX(b: byte)
    ensures (((b >> 4) as bv16) << 12) | (((b & 0xF) as bv16) << 8) == (b as bv16) << 8 && b >> 4 < 16 && b & 0xF < 16
  {
  }

  lemma TableXDivides(b: byte)
    ensures TableX(b) == ByteX((b as bv16) << 8)
  {
    hide ByteX, XmodemRow, DividedX, Place;
    JoinX(b);
    RowX(b >> 4);
    PickX(((b >> 4) as bv16) << 12, b & 0xF);
  }

  function IndexX(c: bv16, b: byte): byte { ((c >> 8) as byte) ^ b }

  function UpdateX(c: bv16, s: bv16): bv16 { (c << 8) ^ s }

  function HighByte(c: bv16): bv16 { c & 0xFF00 }

  function HighNibble(c: bv16): bv16 { c & 0xF000 }

  predicate MovedUp(c: bv16, s: bv16, r: bv16) { r == (c << 4) ^ s }

  predicate Apart(x: bv16, y: bv16, l: bv16) { x == y ^ l }

  predicate ClearX(l: bv16) { l & 0x8000 == 0 }

  function Up(l: bv16): bv16 { l << 1 }

  function Fed(l: bv16): bv16 { (l << 1) ^ 0x1021 }

  lemma UpApart(x: bv16, y: bv16, l: bv16)
    requires Apart(x, y, l)
    ensures Apart(Up(x), Up(y), Up(l))
  {
  }

  lemma FedApart(x: bv16, y: bv16, l: bv16)
    requires Apart(x, y, l)
    ensures Apart(Fed(x), Fed(y), Up(l))
  {
  }

  lemma TopBit(x: bv16, y: bv16, l: bv16)
    requires Apart(x, y, l) && ClearX(l)
    ensures ClearX(x) == ClearX(y)
  {
  }

  lemma BitXIs(x: bv16)
    ensures BitX(x) == if ClearX(x) then Up(x) else Fed(x)
  {
  }

  lemma BitSplitX(x: bv16, y: bv16, l: bv16)
    requires Apart(x, y, l) && ClearX(l)
    ensures Apart(BitX(x), BitX(y), Up(l))
  {
    hide *;
    UpApart(x, y, l);
    FedApart(x, y, l);
    TopBit(x, y, l);
    BitXIs(x);
    BitXIs(y);
  }

  lemma TopNibble(c: bv16) returns (l: bv16)
    ensures Apart(c, HighNibble(c), l) && ClearX(l) && ClearX(Up(l)) && ClearX(Up(Up(l))) && ClearX(Up(Up(Up(l))))
    ensures forall r: bv16, s: bv16 {:trigger Apart(r, s, Up(Up(Up(Up(l)))))} ::
              Apart(r, s, Up(Up(Up(Up(l))))) ==> MovedUp(c, s, r)
  {
    l := c & 0x0FFF;
  }

  /** Bits below the highest ones only move up. */
  lemma NibbleSplitX(c: bv16)
    ensures MovedUp(c, NibbleX(HighNibble(c)), NibbleX(c))
  {
    hide BitX, Apart, ClearX, Up, MovedUp, HighNibble;
    var l := TopNibble(c);
    var h := HighNibble(c);
    BitSplitX(c, h, l);
    BitSplitX(BitX(c), BitX(h), Up(l));
    BitSplitX(BitX(BitX(c)), BitX(BitX(h)), Up(Up(l)));
    BitSplitX(BitX(BitX(BitX(c))), BitX(BitX(BitX(h))), Up(Up(Up(l))));
  }

  lemma HighNibbles(c: bv16, n: bv16, x: bv16, y: bv16, m: bv16, r: bv16, s: bv16)
    requires MovedUp(c, n, x) && MovedUp(HighByte(c), n, y)
    ensures HighNibble(x) == HighNibble(y)
    ensures MovedUp(x, m, r) && MovedUp(y, m, s) ==> r == UpdateX(c, s)
  {
  }

  lemma HighHigh(c: bv16)
    ensures HighNibble(HighByte(c)) == HighNibble(c)
  {
  }

  lemma ByteSplitX(c: bv16)
    ensures ByteX(c) == UpdateX(c, ByteX(HighByte(c)))
  {
    hide NibbleX, MovedUp, HighNibble, HighByte, UpdateX;
    var n, x, y := NibbleX(HighNibble(c)), NibbleX(c), NibbleX(HighByte(c));
    NibbleSplitX(c);
    NibbleSplitX(HighByte(c));
    HighHigh(c);
    HighNibbles(c, n, x, y, NibbleX(HighNibble(x)), ByteX(c), ByteX(HighByte(c)));
    NibbleSplitX(x);
    NibbleSplitX(y);
  }

  lemma EnterHighByte(c: bv16, b: byte, s: bv16)
    ensures HighByte(EnterX(c, b)) == (IndexX(c, b) as bv16) << 8 && UpdateX(EnterX(c, b), s) == UpdateX(c, s)
  {
  }

  lemma ByteByTableX(c: bv16, b: byte)
    ensures ByteX(EnterX(c, b)) == UpdateX(c, ByteX((IndexX(c, b) as bv16) << 8))
  {
    hide ByteX, EnterX, IndexX, UpdateX, HighByte;
    ByteSplitX(EnterX(c, b));
    EnterHighByte(c, b, ByteX(HighByte(EnterX(c, b))));
  }

  lemma XmodemByte(c: bv16, b: byte)
    ensures UpdateX(c, TableX(IndexX(c, b))) == ByteX(EnterX(c, b))
  {
    hide ByteX, EnterX, UpdateX, TableX;
    TableXDivides(IndexX(c, b));
    ByteByTableX(c, b);
  }

  lemma DivideXMore(c: bv16, msg: seq<byte>, i: nat)
    requires i < |msg|
    ensures DivideX(c, msg[..i + 1]) == ByteX(EnterX(DivideX(c, msg[..i]), msg[i]))
  {
    hide ByteX, EnterX;
    assert msg[..i + 1][..i] == msg[..i];
  }

  /** ez_crc16_crc16_xmoden */
  method Xmodem(buffer: seq<byte>) returns (crc: bv16)
    ensures crc == DivideX(0, buffer)
  {
    hide ByteX, EnterX, UpdateX, TableX, IndexX;
    crc := 0;
    var i := 0;
    while i < |buffer|
      invariant 0 <= i <= |buffer| && crc == DivideX(0, buffer[..i])
    {
      XmodemByte(crc, buffer[i]);
      DivideXMore(0, buffer, i);
      crc := UpdateX(crc, TableX(IndexX(crc, buffer[i])));
      i := i + 1;
    }
    assert buffer[..i] == buffer;
  }

  function BitsX(c: bv16, n: nat): bv16 { if n == 0 then c else BitX(BitsX(c, n - 1)) }

  lemma BitsXEight(c: bv16)
    ensures BitsX(c, 8) == ByteX(c)
  {
    hide BitX;
    assert BitsX(c, 1) == BitX(c);
    assert BitsX(c, 3) == BitX(BitX(BitsX(c, 1)));
    assert BitsX(c, 5) == BitX(BitX(BitsX(c, 3)));
    assert BitsX(c, 7) == BitX(BitX(BitsX(c, 5)));
  }

  method DoBit(c: bv16) returns (crc: bv16)
    ensures crc == BitX(c)
  {
    if c & 0x8000 != 0 {
      crc := (c << 1) ^ 0x1021;
    } else {
      crc := c << 1;
    }
  }

  /** The inner loop of do_crc. */
  method DoByte(c: bv16) returns (crc: bv16)
    ensures crc == ByteX(c)
  {
    BitsXEight(c);
    hide ByteX, BitX;
    crc := c;
    for i := 0 to 8
      invariant crc == BitsX(c, i)
    {
      crc := DoBit(crc);
    }
  }

  /** do_crc: the division itself, as the loops do it. */
  method DoCrc(buffer: seq<byte>) returns (crc: bv16)
    ensures crc == DivideX(0, buffer)
  {
    hide ByteX, EnterX;
    crc := 0;
    var k := 0;
    while k < |buffer|
      invariant 0 <= k <= |buffer| && crc == DivideX(0, buffer[..k])
    {
      DivideXMore(0, buffer, k);
      crc := DoByte(EnterX(crc, buffer[k]));
      k := k + 1;
    }
    assert buffer[..k] == buffer;
  }
}

